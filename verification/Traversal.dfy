/** When the depth-first traversal ends: its steps one by one, with no bound on them. */
module Traversal {
  import opened Machine
  import opened Links
  import opened Emission
  import H = Chains

  /** Blocks visited, blocks to be visited, and the place in the chain that is followed. */
  datatype Walk = Walk(order: seq<BlockId>, stack: seq<BlockId>, cur: Option<BlockId>)

  /** One turn of the inner loop, or one block taken from the stack. */
  function WalkStep(f: Cfg, w: Walk): Walk {
    if w.cur.Some? then
      var c := w.cur.value;
      if c !in f.blocks then w.(cur := None)
      else if c in w.order then w.(cur := f.blocks[c].next)
      else Walk(w.order + [c], w.stack + Pushed(EdgeList(f.blocks[c].instrs), c, Members(w.order) + {c}), f.blocks[c].next)
    else if w.stack == [] then w
    else
      var b := w.stack[|w.stack| - 1];
      Walk(w.order, w.stack[..|w.stack| - 1], if b in w.order then None else Some(b))
  }

  predicate Done(w: Walk) { w.stack == [] && w.cur.None? }

  function Walked(f: Cfg, n: nat, w: Walk): Walk {
    if n == 0 then w else Walked(f, n - 1, WalkStep(f, w))
  }

  function StartWalk(entry: BlockId): Walk { Walk([], [entry], None) }

  ghost predicate TraversalEnds(f: Cfg, entry: BlockId) {
    exists n: nat :: Done(Walked(f, n, StartWalk(entry)))
  }

  lemma {:induction false} WalkedPlus(f: Cfg, n: nat, m: nat, w: Walk)
    ensures Walked(f, n + m, w) == Walked(f, m, Walked(f, n, w))
  {
    if n > 0 { WalkedPlus(f, n - 1, m, WalkStep(f, w)); }
  }

  // ---- it ends if something falls along the chains ----

  /** Following a chain takes a number of steps. */
  lemma {:induction false} ChainWalked(f: Cfg, rank: map<BlockId, nat>, cur: Option<BlockId>, order: seq<BlockId>, stack: seq<BlockId>) returns (n: nat)
    requires Whole(f) && EndsOn(f, rank) && (cur.Some? ==> cur.value in rank) && Members(stack) <= rank.Keys
    ensures var (o, st) := ChainFrom(f, rank, cur, order, stack); Walked(f, n, Walk(order, stack, cur)) == Walk(o, st, None)
    decreases if cur.Some? then rank[cur.value] + 1 else 0
  {
    if cur.None? {
      n := 0;
    } else {
      var c := cur.value;
      RankNext(f, rank, c);
      ChainStep(f, rank, c, order, stack);
      var w := WalkStep(f, Walk(order, stack, cur));
      hide Whole, EndsOn, ChainFrom;
      var k := ChainWalked(f, rank, f.blocks[c].next, w.order, w.stack);
      n := k + 1;
    }
  }

  /** The traversal comes to the order of the search. */
  lemma {:induction false} SearchWalked(f: Cfg, rank: map<BlockId, nat>, order: seq<BlockId>, stack: seq<BlockId>) returns (n: nat)
    requires Whole(f) && EndsOn(f, rank) && Members(stack) <= rank.Keys
    ensures Walked(f, n, Walk(order, stack, None)) == Walk(Search(f, rank, order, stack), [], None)
    decreases f.blocks.Keys - Members(order), |stack|
  {
    hide Whole, EndsOn, ChainFrom;
    if stack == [] {
      n := 0;
    } else {
      SearchPop(f, rank, order, stack);
      var b, rest, w := stack[|stack| - 1], stack[..|stack| - 1], Walk(order, stack, None);
      if b in order {
        var k := SearchWalked(f, rank, order, rest);
        n := k + 1;
      } else {
        var k := ChainWalked(f, rank, Some(b), order, rest);
        var (o, st) := ChainFrom(f, rank, Some(b), order, rest);
        Grown(f, order, b, o);
        var l := SearchWalked(f, rank, o, st);
        hide Search;
        WalkedPlus(f, k, l, Walk(order, rest, Some(b)));
        n := k + l + 1;
        assert WalkStep(f, w) == Walk(order, rest, Some(b));
        assert Walked(f, n, w) == Walked(f, k + l, Walk(order, rest, Some(b)));
      }
    }
  }

  // ---- it does not if a chain has no end ----

  ghost predicate Endless(f: Cfg, cur: Option<BlockId>) { cur.Some? && !H.HasEnd(H.NextOf(f), cur.value) }

  /** Of the blocks visited all chains have ends, or the traversal is in one that has none. */
  ghost predicate Going(f: Cfg, entry: BlockId, w: Walk) {
    && AllPending(f, w.order, w.stack, w.cur)
    && entry in Members(w.order) + Members(w.stack) + Coming(w.cur)
    && Members(w.stack) <= f.blocks.Keys && Coming(w.cur) <= f.blocks.Keys
    && (Endless(f, w.cur) || forall b | b in w.order :: H.HasEnd(H.NextOf(f), b))
  }

  lemma GoesOn(f: Cfg, entry: BlockId, w: Walk)
    requires Whole(f) && Going(f, entry, w)
    ensures Going(f, entry, WalkStep(f, w))
  {
    hide Whole, AllPending, H.HasEnd;
    if w.cur.Some? {
      var c := w.cur.value;
      assert c in Coming(w.cur);
      NextThere(f, c);
      EndlessNext(f, c);
      if c in w.order {
        SkipPending(f, w.order, w.stack, c);
      } else {
        var edges, pushed := EdgeList(f.blocks[c].instrs), Pushed(EdgeList(f.blocks[c].instrs), c, Members(w.order) + {c});
        PushedMembers(edges, c, Members(w.order) + {c});
        VisitMembers(w.order, w.stack, c, edges, pushed);
        VisitPending(f, w.order, w.stack, c, pushed);
      }
    } else if w.stack != [] {
      PopMembers(w.stack);
      PopPending(f, w.order, w.stack);
    }
  }

  /** A chain without an end has none from the next block on either. */
  lemma EndlessNext(f: Cfg, c: BlockId)
    requires c in f.blocks
    ensures Endless(f, f.blocks[c].next) <==> Endless(f, Some(c))
  {
    var next := H.NextOf(f);
    if f.blocks[c].next.Some? {
      H.EndNext(next, c);
    } else {
      assert H.Along(next, 1, c).None?;
    }
  }

  lemma PopPending(f: Cfg, order: seq<BlockId>, stack: seq<BlockId>)
    requires stack != [] && AllPending(f, order, stack, None)
    ensures var b, rest := stack[|stack| - 1], stack[..|stack| - 1];
            AllPending(f, order, rest, if b in order then None else Some(b))
  {
    hide Pending;
    var b, rest := stack[|stack| - 1], stack[..|stack| - 1];
    var cur := if b in order then None else Some(b);
    PopMembers(stack);
    forall c | c in order ensures Pending(f, c, Members(order) + Coming(cur), Members(order) + Coming(cur) + Members(rest)) {
      PendingAt(f, order, stack, None, c);
      StillPending(f, c, Members(order) + Coming(None), Members(order) + Coming(None) + Members(stack),
        Members(order) + Coming(cur), Members(order) + Coming(cur) + Members(rest));
    }
  }

  lemma {:induction false} KeepsGoing(f: Cfg, entry: BlockId, n: nat, w: Walk)
    requires Whole(f) && Going(f, entry, w)
    ensures Going(f, entry, Walked(f, n, w))
  {
    if n > 0 {
      GoesOn(f, entry, w);
      hide Whole, Going, WalkStep;
      KeepsGoing(f, entry, n - 1, WalkStep(f, w));
    }
  }

  /** When it is over, all that can be reached has been visited, and has an end. */
  lemma DoneEnds(f: Cfg, entry: BlockId, w: Walk)
    requires Going(f, entry, w) && Done(w)
    ensures forall b | Reachable(f, entry, b) :: H.HasEnd(H.NextOf(f), b)
  {
    hide H.HasEnd;
    assert Members(w.stack) == {} && Coming(w.cur) == {};
    assert ClosedSet(f, Members(w.order)) by {
      forall b | b in Members(w.order) ensures b in f.blocks && Followed(f, b, Members(w.order)) {
        PendingAt(f, w.order, w.stack, w.cur, b);
      }
    }
    hide ClosedSet;
    forall b | Reachable(f, entry, b) ensures H.HasEnd(H.NextOf(f), b) { assert b in Members(w.order); }
  }

  // ---- exactly when ----

  /** All chains with a block that can be reached have ends. */
  ghost predicate ChainsEndFrom(f: Cfg, entry: BlockId) {
    forall b | Reachable(f, entry, b) :: H.HasEnd(H.NextOf(f), b)
  }

  ghost function ReachableSet(f: Cfg, entry: BlockId): set<BlockId> {
    set b | b in f.blocks && Reachable(f, entry, b)
  }

  lemma ReachableClosed(f: Cfg, entry: BlockId)
    requires Whole(f) && entry in f.blocks
    ensures ClosedSet(f, ReachableSet(f, entry)) && entry in ReachableSet(f, entry)
  {
    var r := ReachableSet(f, entry);
    forall b | b in r ensures Followed(f, b, r) {
      assert Followed(f, b, f.blocks.Keys);
      forall d | d in f.blocks && (f.blocks[b].next == Some(d) || d in EdgeList(f.blocks[b].instrs)) ensures Reachable(f, entry, d) {
        forall bs | ClosedSet(f, bs) && entry in bs ensures d in bs { assert Followed(f, b, bs); }
      }
    }
  }

  lemma ReachesWithin(f: Cfg, entry: BlockId, bs: set<BlockId>, b: BlockId)
    requires ClosedSet(f, bs) && entry in bs && Reachable(f, entry, b)
    ensures b in bs
  {
  }

  /** Something falls along the chains of a closed set of blocks with the entry if and only if the chains of all
      that can be reached have ends. */
  lemma RankIff(f: Cfg, entry: BlockId)
    requires Whole(f) && entry in f.blocks
    ensures ChainsEndFrom(f, entry) <==> exists rank: map<BlockId, nat> :: entry in rank && EndsOn(f, rank)
  {
    hide Whole, Reachable, H.HasEnd, H.Falls;
    var next, r := H.NextOf(f), ReachableSet(f, entry);
    ReachableClosed(f, entry);
    if ChainsEndFrom(f, entry) {
      forall b | b in r && b in next ensures next[b] in r { assert Followed(f, b, r); }
      H.FallsIff(next, r);
      var rank: map<BlockId, nat> :| rank.Keys == r && H.Falls(next, rank);
      assert entry in rank && EndsOn(f, rank);
    }
    if rank: map<BlockId, nat> :| entry in rank && EndsOn(f, rank) {
      forall b | Reachable(f, entry, b) ensures H.HasEnd(next, b) {
        ReachesWithin(f, entry, rank.Keys, b);
        H.FallEnds(next, rank, b);
        EndAlong(next, rank[b] + 1, b);
      }
    }
  }

  lemma EndAlong(next: H.Neighbours, n: nat, b: BlockId)
    requires H.Along(next, n, b).None?
    ensures H.HasEnd(next, b)
  {
  }

  /** The traversal ends if and only if every chain with a block that can be reached has an end. */
  lemma TraversalEndsIff(f: Cfg, entry: BlockId)
    requires Whole(f) && entry in f.blocks
    ensures TraversalEnds(f, entry) <==> ChainsEndFrom(f, entry)
  {
    hide Whole, EndsOn, Going, ChainsEndFrom, H.HasEnd, Reachable, WalkStep;
    if ChainsEndFrom(f, entry) {
      RankIff(f, entry);
      var rank: map<BlockId, nat> :| entry in rank && EndsOn(f, rank);
      assert Members([entry]) == {entry};
      var n := SearchWalked(f, rank, [], [entry]);
      hide Search;
      assert Done(Walked(f, n, StartWalk(entry)));
    }
    if n: nat :| Done(Walked(f, n, StartWalk(entry))) {
      StartGoing(f, entry);
      KeepsGoing(f, entry, n, StartWalk(entry));
      DoneEnds(f, entry, Walked(f, n, StartWalk(entry)));
      assert ChainsEndFrom(f, entry) by { ChainsEndIs(f, entry); }
    }
  }

  lemma ChainsEndIs(f: Cfg, entry: BlockId)
    requires forall b | Reachable(f, entry, b) :: H.HasEnd(H.NextOf(f), b)
    ensures ChainsEndFrom(f, entry)
  {
  }

  lemma StartGoing(f: Cfg, entry: BlockId)
    requires entry in f.blocks
    ensures Going(f, entry, StartWalk(entry))
  {
    assert Members([entry]) == {entry};
  }
}

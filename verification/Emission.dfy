/** The depth-first order in which blocks are visited and laid out. */
module Emission {
  import opened Machine
  import opened Links
  import H = Chains

  /** Targets of the branches of a block, in the order of its instructions. */
  function EdgeList(instrs: seq<Instr>): seq<BlockId> {
    if instrs == [] then []
    else
      EdgeList(instrs[..|instrs| - 1])
        + (var i := instrs[|instrs| - 1]; if i.kind.Branch? && i.kind.edge.Some? then [i.kind.edge.value] else [])
  }

  /** Every successor of a member is a member. */
  ghost predicate ClosedSet(f: Cfg, bs: set<BlockId>) {
    forall b | b in bs :: b in f.blocks && Followed(f, b, bs)
  }

  ghost predicate Followed(f: Cfg, b: BlockId, bs: set<BlockId>)
    requires b in f.blocks
  {
    && (f.blocks[b].next.Some? ==> f.blocks[b].next.value in bs)
    && forall d | d in EdgeList(f.blocks[b].instrs) :: d in bs
  }

  ghost predicate NoRepeat(s: seq<BlockId>) {
    forall j, k | 0 <= j < k < |s| :: s[j] != s[k]
  }

  /** The successor in the chain comes right behind the block, or came before it. */
  ghost predicate ChainOrder(f: Cfg, order: seq<BlockId>) {
    forall p | 0 <= p < |order| && order[p] in f.blocks && f.blocks[order[p]].next.Some? :: NextPlaced(f, order, p)
  }

  ghost predicate NextPlaced(f: Cfg, order: seq<BlockId>, p: int)
    requires 0 <= p < |order| && order[p] in f.blocks && f.blocks[order[p]].next.Some?
  {
    var n := f.blocks[order[p]].next.value;
    (p + 1 < |order| && order[p + 1] == n) || n in order[..p]
  }

  /** Every fallthrough goes to the block laid out next. */
  ghost predicate FallsThrough(f: Cfg, order: seq<BlockId>) {
    forall p | 0 <= p < |order| && order[p] in f.blocks && f.blocks[order[p]].next.Some? ::
      p + 1 < |order| && order[p + 1] == f.blocks[order[p]].next.value
  }

  /** No block is laid out before its predecessor in the chain. */
  ghost predicate EnteredAtHead(f: Cfg, order: seq<BlockId>) {
    forall p, q | 0 <= p < |order| && 0 <= q < |order| && order[p] in f.blocks && f.blocks[order[p]].next == Some(order[q]) :: p < q
  }

  /** The layout falls through as the graph does if and only if no chain was entered in its middle. */
  lemma FallsThroughIff(f: Cfg, order: seq<BlockId>)
    requires ChainOrder(f, order) && NoRepeat(order) && forall b | b in order :: b in f.blocks
    ensures FallsThrough(f, order) <==> EnteredAtHead(f, order)
  {
    if FallsThrough(f, order) {
      forall p, q | 0 <= p < |order| && 0 <= q < |order| && order[p] in f.blocks && f.blocks[order[p]].next == Some(order[q]) ensures p < q {
        assert order[p + 1] == order[q];
        assert q == p + 1;
      }
    } else {
      var p :| 0 <= p < |order| && order[p] in f.blocks && f.blocks[order[p]].next.Some?
        && !(p + 1 < |order| && order[p + 1] == f.blocks[order[p]].next.value);
      assert NextPlaced(f, order, p);
      var q :| 0 <= q < p && order[q] == f.blocks[order[p]].next.value;
      assert f.blocks[order[p]].next == Some(order[q]) && q < p;
    }
  }

  /** If no branch leads into the middle of a chain, and the entry is at the head of its own, no chain
      is entered in its middle: a block comes into an order closed under successors only behind its
      predecessor. */
  ghost predicate HeadsOnly(f: Cfg, entry: BlockId) {
    && (entry in f.blocks ==> f.blocks[entry].prev.None?)
    && forall b, d | b in f.blocks && d in EdgeList(f.blocks[b].instrs) && d in f.blocks :: f.blocks[d].prev.None?
  }

  ghost predicate Whole(f: Cfg) {
    forall b | b in f.blocks :: Followed(f, b, f.blocks.Keys)
  }

  /** These blocks have all their successors among them, and something falls along their chains. */
  ghost predicate EndsOn(f: Cfg, rank: map<BlockId, nat>) {
    ClosedSet(f, rank.Keys) && H.Falls(H.NextOf(f), rank)
  }

  /** The fallthrough of a visited block has been visited, its targets at least noted. */
  ghost predicate Pending(f: Cfg, b: BlockId, visited: set<BlockId>, noted: set<BlockId>) {
    && b in f.blocks
    && (f.blocks[b].next.Some? ==> f.blocks[b].next.value in visited)
    && forall d | d in EdgeList(f.blocks[b].instrs) :: d in noted
  }

  /** What is put on the stack: the targets not visited yet, the first one on top. */
  function Pushed(edges: seq<BlockId>, b: BlockId, visited: set<BlockId>): seq<BlockId> {
    if edges == [] then []
    else Pushed(edges[1..], b, visited) + (if edges[0] != b && edges[0] !in visited then [edges[0]] else [])
  }

  lemma {:induction false} PushedMembers(edges: seq<BlockId>, b: BlockId, visited: set<BlockId>)
    ensures forall d :: d in Pushed(edges, b, visited) <==> d in edges && d != b && d !in visited
  {
    if edges != [] {
      PushedMembers(edges[1..], b, visited);
      assert edges == [edges[0]] + edges[1..];
    }
  }

  method Push(edges: seq<BlockId>, b: BlockId, visited: set<BlockId>, stack: seq<BlockId>) returns (r: seq<BlockId>)
    ensures r == stack + Pushed(edges, b, visited)
  {
    r := stack;
    var k := |edges|;
    while k > 0
      invariant 0 <= k <= |edges| && r == stack + Pushed(edges[k..], b, visited)
    {
      k := k - 1;
      assert edges[k..][1..] == edges[k + 1..];
      if edges[k] != b && edges[k] !in visited {
        r := r + [edges[k]];
      }
    }
    assert edges[0..] == edges;
  }

  // ---- the search as a function of the graph ----

  /** Following a chain from block cur on: blocks not visited yet come next in the order, their targets on the
      stack. */
  ghost function ChainFrom(f: Cfg, rank: map<BlockId, nat>, cur: Option<BlockId>, order: seq<BlockId>, stack: seq<BlockId>):
      (r: (seq<BlockId>, seq<BlockId>))
    requires Whole(f) && EndsOn(f, rank) && (cur.Some? ==> cur.value in rank) && Members(stack) <= rank.Keys
    ensures order <= r.0 && (cur.Some? ==> cur.value in r.0) && Members(r.1) <= rank.Keys
    decreases if cur.Some? then rank[cur.value] + 1 else 0
  {
    if cur.None? then (order, stack)
    else
      var c := cur.value;
      RankNext(f, rank, c);
      PushedMembers(EdgeList(f.blocks[c].instrs), c, Members(order) + {c});
      var r :=
        if c in order then ChainFrom(f, rank, f.blocks[c].next, order, stack)
        else ChainFrom(f, rank, f.blocks[c].next, order + [c], stack + Pushed(EdgeList(f.blocks[c].instrs), c, Members(order) + {c}));
      InLonger(if c in order then order else order + [c], r.0, c);
      r
  }

  lemma InLonger(s: seq<BlockId>, t: seq<BlockId>, b: BlockId)
    requires s <= t && b in s
    ensures b in t
  {
    var k :| 0 <= k < |s| && s[k] == b;
    assert t[k] == b;
  }

  /** The search goes on from here: the order it ends with. */
  ghost function Search(f: Cfg, rank: map<BlockId, nat>, order: seq<BlockId>, stack: seq<BlockId>): (r: seq<BlockId>)
    requires Whole(f) && EndsOn(f, rank) && Members(stack) <= rank.Keys
    ensures order <= r
    decreases f.blocks.Keys - Members(order), |stack|
  {
    if stack == [] then order
    else
      PopMembers(stack);
      var b, rest := stack[|stack| - 1], stack[..|stack| - 1];
      assert b in Members(stack);
      if b in order then Search(f, rank, order, rest)
      else
        var (o, st) := ChainFrom(f, rank, Some(b), order, rest);
        Grown(f, order, b, o);
        Search(f, rank, o, st)
  }

  lemma Grown(f: Cfg, order: seq<BlockId>, b: BlockId, o: seq<BlockId>)
    requires order <= o && b in o && b in f.blocks && b !in order
    ensures f.blocks.Keys - Members(o) < f.blocks.Keys - Members(order)
  {
    assert o == order + o[|order|..];
    assert forall c | c in order :: c in o;
    assert b in f.blocks.Keys - Members(order) && b !in f.blocks.Keys - Members(o);
  }

  /** Every set of blocks with the entry that is closed under successors has the block. */
  ghost predicate Reachable(f: Cfg, entry: BlockId, b: BlockId) {
    forall bs | ClosedSet(f, bs) && entry in bs :: b in bs
  }

  /** The search will take a block from the stack, the entry or the target of a branch, whose predecessor in
      the chain can be reached but has not been visited: it enters the chain behind its head. */
  ghost predicate EntersBehind(f: Cfg, rank: map<BlockId, nat>, entry: BlockId, order: seq<BlockId>, stack: seq<BlockId>)
    requires Whole(f) && EndsOn(f, rank) && Members(stack) <= rank.Keys
    decreases f.blocks.Keys - Members(order), |stack|
  {
    if stack == [] then false
    else
      PopMembers(stack);
      var b, rest := stack[|stack| - 1], stack[..|stack| - 1];
      assert b in Members(stack);
      if b in order then EntersBehind(f, rank, entry, order, rest)
      else
        var (o, st) := ChainFrom(f, rank, Some(b), order, rest);
        Grown(f, order, b, o);
        || (f.blocks[b].prev.Some? && f.blocks[b].prev.value !in order && Reachable(f, entry, f.blocks[b].prev.value))
        || EntersBehind(f, rank, entry, o, st)
  }

  function Coming(cur: Option<BlockId>): set<BlockId> {
    if cur.Some? then {cur.value} else {}
  }

  /** What holds while a chain is walked; cur is the block to look at next, if there is one. */
  ghost predicate Walking(f: Cfg, entry: BlockId, order: seq<BlockId>, stack: seq<BlockId>, cur: Option<BlockId>) {
    && InGraph(f, order, stack, cur) && ChainSoFar(f, order, cur) && AllPending(f, order, stack, cur)
    && Least(f, entry, order, stack, cur) && (HeadsOnly(f, entry) ==> HeadWalk(f, order, stack, cur))
  }

  ghost predicate InGraph(f: Cfg, order: seq<BlockId>, stack: seq<BlockId>, cur: Option<BlockId>) {
    && Members(order) <= f.blocks.Keys && Members(stack) <= f.blocks.Keys && Coming(cur) <= f.blocks.Keys && NoRepeat(order)
  }

  ghost predicate ChainSoFar(f: Cfg, order: seq<BlockId>, cur: Option<BlockId>) {
    forall p | 0 <= p < |order| :: PlacedOr(f, order, p, cur)
  }

  ghost predicate PlacedOr(f: Cfg, order: seq<BlockId>, p: int, cur: Option<BlockId>)
    requires 0 <= p < |order|
  {
    order[p] in f.blocks && f.blocks[order[p]].next.Some? ==>
      NextPlaced(f, order, p) || (p == |order| - 1 && f.blocks[order[p]].next == cur)
  }

  ghost predicate AllPending(f: Cfg, order: seq<BlockId>, stack: seq<BlockId>, cur: Option<BlockId>) {
    forall b | b in order :: Pending(f, b, Members(order) + Coming(cur), Members(order) + Coming(cur) + Members(stack))
  }

  ghost predicate Least(f: Cfg, entry: BlockId, order: seq<BlockId>, stack: seq<BlockId>, cur: Option<BlockId>) {
    forall bs | ClosedSet(f, bs) && entry in bs :: Members(order) + Members(stack) + Coming(cur) <= bs
  }

  /** With chains entered at their heads only. */
  ghost predicate HeadWalk(f: Cfg, order: seq<BlockId>, stack: seq<BlockId>, cur: Option<BlockId>) {
    && (forall p | 0 <= p < |order| :: FallsOr(f, order, p, cur))
    && (forall b | b in stack :: IsHead(f, b))
    && (forall b | b in order :: PrevIn(f, b, order))
    && (cur.Some? && cur.value !in order ==> PrevIn(f, cur.value, order))
  }

  ghost predicate FallsOr(f: Cfg, order: seq<BlockId>, p: int, cur: Option<BlockId>)
    requires 0 <= p < |order|
  {
    order[p] in f.blocks && f.blocks[order[p]].next.Some? ==>
      if p + 1 < |order| then order[p + 1] == f.blocks[order[p]].next.value
      else f.blocks[order[p]].next == cur && cur.value !in order
  }

  ghost predicate IsHead(f: Cfg, b: BlockId) { b in f.blocks && f.blocks[b].prev.None? }

  ghost predicate PrevIn(f: Cfg, b: BlockId, order: seq<BlockId>) {
    b in f.blocks && f.blocks[b].prev.Some? ==> f.blocks[b].prev.value in order
  }

  /** Blocks in the order of for_each_block_dfs: from the entry, chains as a whole, the first branch
      first. A chain that closes on itself would keep the code going round for ever. */
  method ForEachBlockDfs(f: Cfg, entry: BlockId, ghost rank: map<BlockId, nat>) returns (order: seq<BlockId>)
    requires entry in rank && Whole(f) && Chained(f) && EndsOn(f, rank)
    ensures NoRepeat(order) && order != [] && order[0] == entry
    ensures ClosedSet(f, Members(order))
    ensures forall bs | ClosedSet(f, bs) && entry in bs :: Members(order) <= bs
    ensures ChainOrder(f, order)
    ensures HeadsOnly(f, entry) ==> FallsThrough(f, order)
    ensures Members([entry]) <= rank.Keys && order == Search(f, rank, [], [entry])
    ensures FallsThrough(f, order) <==> !EntersBehind(f, rank, entry, [], [entry])
  {
    hide Walking, Whole, Chained, EndsOn, ClosedSet, ChainOrder, FallsThrough, HeadsOnly, NoRepeat;
    var stack := [entry];
    var visited := {};
    order := [];
    RankNext(f, rank, entry);
    StartWalking(f, entry);
    while stack != []
      invariant visited == Members(order) && Walking(f, entry, order, stack, None)
      invariant if order == [] then stack == [entry] else order[0] == entry
      invariant Members(stack) <= rank.Keys && Search(f, rank, order, stack) == Search(f, rank, [], [entry])
      decreases f.blocks.Keys - visited, |stack|
    {
      var b := stack[|stack| - 1];
      var rest := stack[..|stack| - 1];
      StackThere(f, entry, order, stack);
      SearchPop(f, rank, order, stack);
      if b in visited {
        PopVisited(f, entry, order, stack);
        stack := rest;
        continue;
      }
      PopFresh(f, entry, order, stack);
      ghost var before, o := visited, order;
      order, stack, visited := VisitChain(f, entry, b, order, rest, visited, rank);
      MoreVisited(f, o, b, order);
    }
    AllVisited(f, entry, order);
    SearchEnds(f, rank, order);
    FallsThroughIff(f, order);
    BehindIff(f, rank, entry);
  }

  /** One block taken from the stack. */
  lemma SearchPop(f: Cfg, rank: map<BlockId, nat>, order: seq<BlockId>, stack: seq<BlockId>)
    requires Whole(f) && EndsOn(f, rank) && Members(stack) <= rank.Keys && stack != []
    ensures var b, rest := stack[|stack| - 1], stack[..|stack| - 1];
            && b in rank && b in f.blocks && Members(rest) <= rank.Keys
            && (if b in order then Search(f, rank, order, stack) == Search(f, rank, order, rest)
                else var (o, st) := ChainFrom(f, rank, Some(b), order, rest); Search(f, rank, order, stack) == Search(f, rank, o, st))
  {
    PopMembers(stack);
    assert stack[|stack| - 1] in Members(stack);
  }

  lemma SearchEnds(f: Cfg, rank: map<BlockId, nat>, order: seq<BlockId>)
    requires Whole(f) && EndsOn(f, rank)
    ensures Search(f, rank, order, []) == order
  {
  }

  lemma StartWalking(f: Cfg, entry: BlockId)
    requires entry in f.blocks
    ensures Walking(f, entry, [], [entry], None) && Members([]) == {} && Members([entry]) <= f.blocks.Keys
  {
    assert Members([entry]) == {entry};
  }

  lemma StackThere(f: Cfg, entry: BlockId, order: seq<BlockId>, stack: seq<BlockId>)
    requires stack != [] && Walking(f, entry, order, stack, None)
    ensures stack[|stack| - 1] in f.blocks && Members(order) <= f.blocks.Keys
  {
    assert stack[|stack| - 1] in Members(stack);
  }

  lemma MoreVisited(f: Cfg, o: seq<BlockId>, b: BlockId, order: seq<BlockId>)
    requires o + [b] <= order && b in f.blocks && b !in Members(o)
    ensures f.blocks.Keys - Members(order) < f.blocks.Keys - Members(o)
    ensures order != [] && order[0] == (if o == [] then b else o[0])
  {
    assert order[|o|] == b && order[..|o|] == o;
    assert forall c | c in o :: c in order;
    assert b in f.blocks.Keys - Members(o) && b !in f.blocks.Keys - Members(order);
  }

  method VisitChain(f: Cfg, entry: BlockId, b: BlockId, order0: seq<BlockId>, stack0: seq<BlockId>, visited0: set<BlockId>,
      ghost rank: map<BlockId, nat>) returns (order: seq<BlockId>, stack: seq<BlockId>, visited: set<BlockId>)
    requires Whole(f) && Chained(f) && EndsOn(f, rank) && b in rank && b in f.blocks && Members(stack0) <= rank.Keys
    requires visited0 == Members(order0) && b !in visited0 && Walking(f, entry, order0, stack0, Some(b))
    ensures visited == Members(order) && Walking(f, entry, order, stack, None)
    ensures order0 + [b] <= order
    ensures Members(stack) <= rank.Keys && (order, stack) == ChainFrom(f, rank, Some(b), order0, stack0)
  {
    hide Walking, Whole, Chained, EndsOn;
    order, stack, visited := order0, stack0, visited0;
    var cur := Some(b);
    WalkingParts(f, entry, order0, stack0, Some(b));
    ghost var first := true;
    while cur.Some?
      invariant visited == Members(order) && Walking(f, entry, order, stack, cur)
      invariant cur.Some? ==> cur.value in rank
      invariant if first then order == order0 && cur == Some(b) else order0 + [b] <= order
      invariant Members(stack) <= rank.Keys && ChainFrom(f, rank, cur, order, stack) == ChainFrom(f, rank, Some(b), order0, stack0)
      decreases if cur.Some? then rank[cur.value] + 1 else 0
    {
      var c := cur.value;
      RankNext(f, rank, c);
      ChainStep(f, rank, c, order, stack);
      if c in visited {
        SkipVisited(f, entry, order, stack, c, rank);
        cur := f.blocks[c].next;
        continue;
      }
      ghost var was, rest := order, stack;
      order := order + [c];
      visited := visited + {c};
      assert Members(order) == Members(was) + {c};
      stack := Push(EdgeList(f.blocks[c].instrs), c, visited, stack);
      VisitOne(f, entry, was, rest, c, rank);
      cur := f.blocks[c].next;
      first := false;
    }
  }

  /** One block of a chain. */
  lemma ChainStep(f: Cfg, rank: map<BlockId, nat>, c: BlockId, order: seq<BlockId>, stack: seq<BlockId>)
    requires Whole(f) && EndsOn(f, rank) && c in rank && Members(stack) <= rank.Keys
    ensures var n := f.blocks[c].next;
            var st := stack + Pushed(EdgeList(f.blocks[c].instrs), c, Members(order) + {c});
            && (n.Some? ==> n.value in rank) && Members(st) <= rank.Keys
            && ChainFrom(f, rank, Some(c), order, stack)
                 == if c in order then ChainFrom(f, rank, n, order, stack) else ChainFrom(f, rank, n, order + [c], st)
  {
    RankNext(f, rank, c);
    PushedMembers(EdgeList(f.blocks[c].instrs), c, Members(order) + {c});
  }

  /** Along a chain every block but the first is visited behind its predecessor. */
  lemma {:induction false} ChainBehind(f: Cfg, rank: map<BlockId, nat>, cur: Option<BlockId>, order: seq<BlockId>, stack: seq<BlockId>)
    requires Whole(f) && Chained(f) && EndsOn(f, rank) && (cur.Some? ==> cur.value in rank) && Members(stack) <= rank.Keys
    ensures var o := ChainFrom(f, rank, cur, order, stack).0;
            && (cur.Some? && cur.value !in order ==> |order| < |o| && o[|order|] == cur.value)
            && forall q | |order| <= q < |o| && Some(o[q]) != cur :: Preceded(f, o, q)
    decreases if cur.Some? then rank[cur.value] + 1 else 0
  {
    if cur.Some? {
      var c := cur.value;
      RankNext(f, rank, c);
      ChainStep(f, rank, c, order, stack);
      var n := f.blocks[c].next;
      var order' := if c in order then order else order + [c];
      var stack' := if c in order then stack else stack + Pushed(EdgeList(f.blocks[c].instrs), c, Members(order) + {c});
      ChainBehind(f, rank, n, order', stack');
      var o := ChainFrom(f, rank, n, order', stack').0;
      hide Whole, EndsOn, ChainFrom;
      forall q | |order| <= q < |o| && Some(o[q]) != cur ensures Preceded(f, o, q) {
        assert q == |order| ==> c in order;
        if Some(o[q]) == n {
          var k :| 0 <= k < |order'| && order'[k] == c;
          assert o[k] == c && k < q && o[..q][k] == c;
        }
      }
    }
  }

  ghost predicate Preceded(f: Cfg, o: seq<BlockId>, q: int)
    requires 0 <= q < |o|
  {
    o[q] in f.blocks && f.blocks[o[q]].prev.Some? ==> f.blocks[o[q]].prev.value in o[..q]
  }

  /** From position k of the order on, some block comes before its predecessor in the chain. */
  ghost predicate Behind(f: Cfg, order: seq<BlockId>, k: nat) {
    exists p, q :: BehindAt(f, order, k, p, q)
  }

  ghost predicate BehindAt(f: Cfg, order: seq<BlockId>, k: nat, p: int, q: int) {
    k <= q <= p < |order| && order[p] in f.blocks && f.blocks[order[p]].next == Some(order[q])
  }

  lemma {:induction false} BehindFrom(f: Cfg, rank: map<BlockId, nat>, entry: BlockId, all: seq<BlockId>, order: seq<BlockId>, stack: seq<BlockId>)
    requires Whole(f) && Chained(f) && EndsOn(f, rank) && Members(stack) <= rank.Keys
    requires all == Search(f, rank, order, stack) && NoRepeat(all) && forall b :: Reachable(f, entry, b) <==> b in all
    ensures EntersBehind(f, rank, entry, order, stack) <==> Behind(f, all, |order|)
    decreases f.blocks.Keys - Members(order), |stack|
  {
    hide ClosedSet, Reachable, Whole, EndsOn, ChainFrom;
    if stack != [] {
      SearchPop(f, rank, order, stack);
      var b, rest := stack[|stack| - 1], stack[..|stack| - 1];
      if b in order {
        BehindFrom(f, rank, entry, all, order, rest);
      } else {
        var (o, st) := ChainFrom(f, rank, Some(b), order, rest);
        Grown(f, order, b, o);
        BehindFrom(f, rank, entry, all, o, st);
        ChainBehind(f, rank, Some(b), order, rest);
        hide Search, EntersBehind;
        BehindSplit(f, all, order, o, b);
      }
    }
  }

  /** In a chain from block b on, at most b comes before its predecessor. */
  lemma BehindSplit(f: Cfg, all: seq<BlockId>, order: seq<BlockId>, o: seq<BlockId>, b: BlockId)
    requires Chained(f) && NoRepeat(all) && order <= o <= all && b in f.blocks && b !in order && |order| < |o| && o[|order|] == b
    requires forall q | |order| <= q < |o| && o[q] != b :: Preceded(f, o, q)
    ensures Behind(f, all, |order|) <==>
              Behind(f, all, |o|) || (f.blocks[b].prev.Some? && f.blocks[b].prev.value !in order && f.blocks[b].prev.value in all)
  {
    if p, q :| BehindAt(f, all, |order|, p, q) {
      if q >= |o| {
        assert BehindAt(f, all, |o|, p, q);
      } else {
        NotBehind(f, all, order, o, b, p, q);
      }
    }
    if p, q :| BehindAt(f, all, |o|, p, q) {
      assert BehindAt(f, all, |order|, p, q);
    }
    if f.blocks[b].prev.Some? && f.blocks[b].prev.value !in order && f.blocks[b].prev.value in all {
      assert forall k | 0 <= k < |order| :: all[k] == order[k];
      var p :| 0 <= p < |all| && all[p] == f.blocks[b].prev.value;
      assert BehindAt(f, all, |order|, p, |order|);
    }
  }

  lemma PrecededBefore(f: Cfg, all: seq<BlockId>, o: seq<BlockId>, p: int, q: int)
    requires NoRepeat(all) && o <= all && 0 <= q < |o| && 0 <= p < |all| && Preceded(f, o, q)
    requires o[q] in f.blocks && f.blocks[o[q]].prev == Some(all[p])
    ensures p < q
  {
    var k :| 0 <= k < q && o[..q][k] == all[p];
    assert all[k] == all[p];
  }

  lemma NotBehind(f: Cfg, all: seq<BlockId>, order: seq<BlockId>, o: seq<BlockId>, b: BlockId, p: int, q: int)
    requires Chained(f) && NoRepeat(all) && order <= o <= all && b !in order && |order| < |o| && o[|order|] == b
    requires forall j | |order| <= j < |o| && o[j] != b :: Preceded(f, o, j)
    requires BehindAt(f, all, |order|, p, q) && q < |o|
    ensures b in f.blocks && f.blocks[b].prev.Some? && f.blocks[b].prev.value !in order && f.blocks[b].prev.value in all
  {
    assert all[q] == o[q] && f.blocks[o[q]].prev == Some(all[p]);
    assert forall k | 0 <= k < |order| :: order[k] == all[k];
    if o[q] != b {
      PrecededBefore(f, all, o, p, q);
    }
  }

  /** The layout has every chain entered at its head if and only if the search never enters one behind it. */
  lemma BehindIff(f: Cfg, rank: map<BlockId, nat>, entry: BlockId)
    requires Whole(f) && Chained(f) && EndsOn(f, rank) && Members([entry]) <= rank.Keys
    requires NoRepeat(Search(f, rank, [], [entry])) && forall b | b in Search(f, rank, [], [entry]) :: b in f.blocks
    requires ClosedSet(f, Members(Search(f, rank, [], [entry]))) && entry in Search(f, rank, [], [entry])
    requires forall bs | ClosedSet(f, bs) && entry in bs :: Members(Search(f, rank, [], [entry])) <= bs
    ensures EnteredAtHead(f, Search(f, rank, [], [entry])) <==> !EntersBehind(f, rank, entry, [], [entry])
  {
    hide ClosedSet, Search, Whole, EndsOn, Chained, EntersBehind, NoRepeat, EnteredAtHead, Behind;
    var all := Search(f, rank, [], [entry]);
    assert forall b :: b in all <==> b in Members(all);
    BehindFrom(f, rank, entry, all, [], [entry]);
    HeadOrBehind(f, all);
  }

  lemma HeadOrBehind(f: Cfg, order: seq<BlockId>)
    ensures EnteredAtHead(f, order) <==> !Behind(f, order, 0)
  {
    if !EnteredAtHead(f, order) {
      var p, q :| 0 <= p < |order| && 0 <= q < |order| && order[p] in f.blocks && f.blocks[order[p]].next == Some(order[q]) && !(p < q);
      assert BehindAt(f, order, 0, p, q);
    }
    if p, q :| BehindAt(f, order, 0, p, q) {
      assert !(p < q) && f.blocks[order[p]].next == Some(order[q]);
    }
  }

  lemma RankNext(f: Cfg, rank: map<BlockId, nat>, b: BlockId)
    requires EndsOn(f, rank) && b in rank
    ensures b in f.blocks && Members(EdgeList(f.blocks[b].instrs)) <= rank.Keys
    ensures f.blocks[b].next.Some? ==> f.blocks[b].next.value in rank && rank[f.blocks[b].next.value] < rank[b]
  {
    assert Followed(f, b, rank.Keys);
    assert f.blocks[b].next.Some? ==> b in H.NextOf(f);
  }

  lemma PopMembers(stack: seq<BlockId>)
    requires stack != []
    ensures Members(stack) == Members(stack[..|stack| - 1]) + {stack[|stack| - 1]}
    ensures forall b | b in stack[..|stack| - 1] :: b in stack
  {
    assert stack == stack[..|stack| - 1] + [stack[|stack| - 1]];
  }

  lemma PendingAt(f: Cfg, order: seq<BlockId>, stack: seq<BlockId>, cur: Option<BlockId>, b: BlockId)
    requires AllPending(f, order, stack, cur) && b in order
    ensures Pending(f, b, Members(order) + Coming(cur), Members(order) + Coming(cur) + Members(stack))
  {
  }

  /** Notes may be spread differently as long as none gets lost. */
  lemma StillPending(f: Cfg, b: BlockId, v: set<BlockId>, n: set<BlockId>, v': set<BlockId>, n': set<BlockId>)
    requires Pending(f, b, v, n) && v <= v' && n <= n'
    ensures Pending(f, b, v', n')
  {
  }

  lemma PopVisited(f: Cfg, entry: BlockId, order: seq<BlockId>, stack: seq<BlockId>)
    requires stack != [] && Walking(f, entry, order, stack, None) && stack[|stack| - 1] in Members(order)
    ensures Walking(f, entry, order, stack[..|stack| - 1], None)
  {
    PopMembers(stack);
    hide NoRepeat, ChainSoFar, Pending, ClosedSet, FallsOr, PrevIn, IsHead, HeadsOnly;
    var rest := stack[..|stack| - 1];
    forall c | c in order ensures Pending(f, c, Members(order) + Coming(None), Members(order) + Coming(None) + Members(rest)) {
      PendingAt(f, order, stack, None, c);
      StillPending(f, c, Members(order) + Coming(None), Members(order) + Coming(None) + Members(stack), Members(order) + Coming(None), Members(order) + Coming(None) + Members(rest));
    }
  }

  lemma PopFresh(f: Cfg, entry: BlockId, order: seq<BlockId>, stack: seq<BlockId>)
    requires stack != [] && Walking(f, entry, order, stack, None) && stack[|stack| - 1] !in Members(order)
    ensures Walking(f, entry, order, stack[..|stack| - 1], Some(stack[|stack| - 1]))
  {
    PopMembers(stack);
    hide NoRepeat, Pending, ClosedSet, HeadsOnly;
    var rest, b := stack[..|stack| - 1], stack[|stack| - 1];
    forall c | c in order ensures Pending(f, c, Members(order) + Coming(Some(b)), Members(order) + Coming(Some(b)) + Members(rest)) {
      PendingAt(f, order, stack, None, c);
      StillPending(f, c, Members(order) + Coming(None), Members(order) + Coming(None) + Members(stack),
        Members(order) + Coming(Some(b)), Members(order) + Coming(Some(b)) + Members(rest));
    }
    forall p | 0 <= p < |order| ensures PlacedOr(f, order, p, Some(b)) {
      assert PlacedOr(f, order, p, None);
    }
    if HeadsOnly(f, entry) {
      assert IsHead(f, b);
      forall p | 0 <= p < |order| ensures FallsOr(f, order, p, Some(b)) {
        assert FallsOr(f, order, p, None);
      }
      hide FallsOr, PrevIn, IsHead, ChainSoFar;
    }
  }

  /** A block that has been visited: go on along its chain. */
  lemma SkipVisited(f: Cfg, entry: BlockId, order: seq<BlockId>, stack: seq<BlockId>, c: BlockId, rank: map<BlockId, nat>)
    requires Whole(f) && EndsOn(f, rank) && Chained(f) && c in rank
    requires c in f.blocks && c in Members(order) && Walking(f, entry, order, stack, Some(c))
    ensures Walking(f, entry, order, stack, f.blocks[c].next)
  {
    hide Walking, Whole, EndsOn, Chained;
    var n := f.blocks[c].next;
    NextThere(f, c);
    WalkingParts(f, entry, order, stack, Some(c));
    SkipPending(f, order, stack, c);
    SkipChain(f, order, c, rank);
    SkipLeast(f, entry, order, stack, c);
    if HeadsOnly(f, entry) { SkipHead(f, order, stack, c); }
    assert InGraph(f, order, stack, n) by { InGraphNext(f, order, stack, c, n); }
    WalkingIs(f, entry, order, stack, n);
  }

  lemma WalkingParts(f: Cfg, entry: BlockId, order: seq<BlockId>, stack: seq<BlockId>, cur: Option<BlockId>)
    requires Walking(f, entry, order, stack, cur)
    ensures InGraph(f, order, stack, cur) && ChainSoFar(f, order, cur) && AllPending(f, order, stack, cur)
    ensures Least(f, entry, order, stack, cur) && (HeadsOnly(f, entry) ==> HeadWalk(f, order, stack, cur))
  {
  }

  lemma WalkingIs(f: Cfg, entry: BlockId, order: seq<BlockId>, stack: seq<BlockId>, cur: Option<BlockId>)
    requires InGraph(f, order, stack, cur) && ChainSoFar(f, order, cur) && AllPending(f, order, stack, cur)
    requires Least(f, entry, order, stack, cur) && (HeadsOnly(f, entry) ==> HeadWalk(f, order, stack, cur))
    ensures Walking(f, entry, order, stack, cur)
  {
  }

  lemma NextThere(f: Cfg, c: BlockId)
    requires Whole(f) && c in f.blocks
    ensures Coming(f.blocks[c].next) <= f.blocks.Keys && Members(EdgeList(f.blocks[c].instrs)) <= f.blocks.Keys
  {
    assert Followed(f, c, f.blocks.Keys);
  }

  lemma InGraphNext(f: Cfg, order: seq<BlockId>, stack: seq<BlockId>, c: BlockId, n: Option<BlockId>)
    requires InGraph(f, order, stack, Some(c)) && Coming(n) <= f.blocks.Keys
    ensures InGraph(f, order, stack, n)
  {
  }

  lemma SkipPending(f: Cfg, order: seq<BlockId>, stack: seq<BlockId>, c: BlockId)
    requires AllPending(f, order, stack, Some(c)) && c in Members(order) && c in f.blocks
    ensures AllPending(f, order, stack, f.blocks[c].next)
  {
    hide Pending;
    var n := f.blocks[c].next;
    forall b | b in order ensures Pending(f, b, Members(order) + Coming(n), Members(order) + Coming(n) + Members(stack)) {
      PendingAt(f, order, stack, Some(c), b);
      StillPending(f, b, Members(order) + Coming(Some(c)), Members(order) + Coming(Some(c)) + Members(stack),
        Members(order) + Coming(n), Members(order) + Coming(n) + Members(stack));
    }
  }

  lemma SkipChain(f: Cfg, order: seq<BlockId>, c: BlockId, rank: map<BlockId, nat>)
    requires ChainSoFar(f, order, Some(c)) && c in Members(order) && c in f.blocks && EndsOn(f, rank) && Chained(f) && c in rank
    ensures ChainSoFar(f, order, f.blocks[c].next)
  {
    RankNext(f, rank, c);
    hide EndsOn;
    forall p | 0 <= p < |order| ensures PlacedOr(f, order, p, f.blocks[c].next) {
      assert PlacedOr(f, order, p, Some(c));
      if p == |order| - 1 && order[p] in f.blocks && f.blocks[order[p]].next == Some(c) {
        assert order == order[..p] + [order[p]];
        assert order[p] != c;
      }
    }
  }

  lemma SkipLeast(f: Cfg, entry: BlockId, order: seq<BlockId>, stack: seq<BlockId>, c: BlockId)
    requires Least(f, entry, order, stack, Some(c)) && c in f.blocks
    ensures Least(f, entry, order, stack, f.blocks[c].next)
  {
    forall bs | ClosedSet(f, bs) && entry in bs ensures Members(order) + Members(stack) + Coming(f.blocks[c].next) <= bs {
      assert c in Coming(Some(c));
      assert Followed(f, c, bs);
    }
  }

  lemma SkipHead(f: Cfg, order: seq<BlockId>, stack: seq<BlockId>, c: BlockId)
    requires HeadWalk(f, order, stack, Some(c)) && c in Members(order) && c in f.blocks && Chained(f)
    ensures HeadWalk(f, order, stack, f.blocks[c].next)
  {
    forall p | 0 <= p < |order| ensures FallsOr(f, order, p, f.blocks[c].next) {
      assert FallsOr(f, order, p, Some(c));
    }
  }

  /** A block visited for the first time. */
  lemma VisitOne(f: Cfg, entry: BlockId, order: seq<BlockId>, stack: seq<BlockId>, c: BlockId, rank: map<BlockId, nat>)
    requires Whole(f) && EndsOn(f, rank) && Chained(f) && c in rank
    requires c in f.blocks && c !in Members(order) && Walking(f, entry, order, stack, Some(c))
    ensures Walking(f, entry, order + [c], stack + Pushed(EdgeList(f.blocks[c].instrs), c, Members(order) + {c}), f.blocks[c].next)
  {
    hide Walking, Whole, EndsOn, Chained, InGraph, ChainSoFar, AllPending, Least, HeadWalk, HeadsOnly;
    var n, edges := f.blocks[c].next, EdgeList(f.blocks[c].instrs);
    var pushed := Pushed(edges, c, Members(order) + {c});
    NextThere(f, c);
    WalkingParts(f, entry, order, stack, Some(c));
    PushedMembers(edges, c, Members(order) + {c});
    VisitMembers(order, stack, c, edges, pushed);
    VisitInGraph(f, order, stack, c, pushed);
    VisitPending(f, order, stack, c, pushed);
    VisitChainOrder(f, order, c);
    VisitLeast(f, entry, order, stack, c, pushed);
    if HeadsOnly(f, entry) {
      HeadOne(f, entry, order, stack, c, pushed, rank);
    }
    WalkingIs(f, entry, order + [c], stack + pushed, n);
  }

  lemma VisitMembers(order: seq<BlockId>, stack: seq<BlockId>, c: BlockId, edges: seq<BlockId>, pushed: seq<BlockId>)
    requires forall d :: d in pushed <==> d in edges && d != c && d !in Members(order) + {c}
    ensures Members(order + [c]) == Members(order) + {c} && Members(stack + pushed) == Members(stack) + Members(pushed)
    ensures Members(pushed) <= Members(edges) && Members(edges) <= Members(order) + {c} + Members(pushed)
  {
  }

  lemma VisitInGraph(f: Cfg, order: seq<BlockId>, stack: seq<BlockId>, c: BlockId, pushed: seq<BlockId>)
    requires InGraph(f, order, stack, Some(c)) && c in f.blocks && c !in Members(order)
    requires Coming(f.blocks[c].next) <= f.blocks.Keys && Members(pushed) <= f.blocks.Keys
    requires Members(order + [c]) == Members(order) + {c} && Members(stack + pushed) == Members(stack) + Members(pushed)
    ensures InGraph(f, order + [c], stack + pushed, f.blocks[c].next)
  {
    assert forall j | 0 <= j < |order| :: order[j] in Members(order);
  }

  lemma VisitPending(f: Cfg, order: seq<BlockId>, stack: seq<BlockId>, c: BlockId, pushed: seq<BlockId>)
    requires AllPending(f, order, stack, Some(c)) && c in f.blocks
    requires Members(order + [c]) == Members(order) + {c} && Members(stack + pushed) == Members(stack) + Members(pushed)
    requires Members(EdgeList(f.blocks[c].instrs)) <= Members(order) + {c} + Members(pushed)
    ensures AllPending(f, order + [c], stack + pushed, f.blocks[c].next)
  {
    var n, v := f.blocks[c].next, Members(order) + {c} + Coming(f.blocks[c].next);
    forall b | b in order + [c] ensures Pending(f, b, v, v + Members(stack + pushed)) {
      if b in order {
        PendingAt(f, order, stack, Some(c), b);
        StillPending(f, b, Members(order) + Coming(Some(c)), Members(order) + Coming(Some(c)) + Members(stack), v, v + Members(stack + pushed));
      } else {
        assert forall d | d in EdgeList(f.blocks[c].instrs) :: d in Members(EdgeList(f.blocks[c].instrs));
      }
    }
  }

  lemma VisitChainOrder(f: Cfg, order: seq<BlockId>, c: BlockId)
    requires ChainSoFar(f, order, Some(c)) && c in f.blocks
    ensures ChainSoFar(f, order + [c], f.blocks[c].next)
  {
    var order' := order + [c];
    forall p | 0 <= p < |order'| ensures PlacedOr(f, order', p, f.blocks[c].next) {
      if p < |order| {
        assert order'[..p] == order[..p];
        assert PlacedOr(f, order, p, Some(c));
      }
    }
  }

  lemma VisitLeast(f: Cfg, entry: BlockId, order: seq<BlockId>, stack: seq<BlockId>, c: BlockId, pushed: seq<BlockId>)
    requires Least(f, entry, order, stack, Some(c)) && c in f.blocks
    requires Members(order + [c]) == Members(order) + {c} && Members(stack + pushed) == Members(stack) + Members(pushed)
    requires Members(pushed) <= Members(EdgeList(f.blocks[c].instrs))
    ensures Least(f, entry, order + [c], stack + pushed, f.blocks[c].next)
  {
    forall bs | ClosedSet(f, bs) && entry in bs ensures Members(order + [c]) + Members(stack + pushed) + Coming(f.blocks[c].next) <= bs {
      assert c in Coming(Some(c));
      assert Followed(f, c, bs);
    }
  }

  lemma NextApart(f: Cfg, rank: map<BlockId, nat>, c: BlockId)
    requires EndsOn(f, rank) && Chained(f) && c in rank && c in f.blocks && f.blocks[c].next.Some?
    ensures var n := f.blocks[c].next.value; n in f.blocks && f.blocks[n].prev == Some(c) && n != c
  {
    RankNext(f, rank, c);
  }

  lemma HeadOne(f: Cfg, entry: BlockId, order: seq<BlockId>, stack: seq<BlockId>, c: BlockId, pushed: seq<BlockId>, rank: map<BlockId, nat>)
    requires EndsOn(f, rank) && Chained(f) && HeadsOnly(f, entry) && c in rank
    requires c in f.blocks && c !in Members(order) && HeadWalk(f, order, stack, Some(c))
    requires Members(order) <= f.blocks.Keys && Members(pushed) <= f.blocks.Keys
    requires Members(pushed) <= Members(EdgeList(f.blocks[c].instrs))
    ensures HeadWalk(f, order + [c], stack + pushed, f.blocks[c].next)
  {
    hide EndsOn, Chained;
    var n, order' := f.blocks[c].next, order + [c];
    if n.Some? {
      NextApart(f, rank, c);
      assert n.value in order ==> PrevIn(f, n.value, order);
    }
    forall p | 0 <= p < |order'| ensures FallsOr(f, order', p, n) {
      if p < |order| {
        assert FallsOr(f, order, p, Some(c));
      }
    }
    forall b | b in stack + pushed ensures IsHead(f, b) {
      if b in pushed {
        assert b in Members(pushed) && b in Members(EdgeList(f.blocks[c].instrs));
      }
    }
    forall b | b in order' ensures PrevIn(f, b, order') {
      assert b in order ==> PrevIn(f, b, order);
    }
  }

  lemma AllVisited(f: Cfg, entry: BlockId, order: seq<BlockId>)
    requires Walking(f, entry, order, [], None)
    ensures NoRepeat(order) && ClosedSet(f, Members(order)) && ChainOrder(f, order) && forall b | b in order :: b in f.blocks
    ensures forall bs | ClosedSet(f, bs) && entry in bs :: Members(order) <= bs
    ensures HeadsOnly(f, entry) ==> FallsThrough(f, order)
  {
    WalkingParts(f, entry, order, [], None);
    hide Walking, HeadsOnly, NextPlaced, NoRepeat;
    assert Members([]) == {};
    assert ClosedSet(f, Members(order)) by {
      forall b | b in Members(order) ensures b in f.blocks && Followed(f, b, Members(order)) {
        PendingAt(f, order, [], None, b);
      }
    }
    hide ClosedSet, AllPending;
    forall p | 0 <= p < |order| && order[p] in f.blocks && f.blocks[order[p]].next.Some? ensures NextPlaced(f, order, p) {
      assert PlacedOr(f, order, p, None);
    }
    if HeadsOnly(f, entry) {
      forall p | 0 <= p < |order| && order[p] in f.blocks && f.blocks[order[p]].next.Some?
        ensures p + 1 < |order| && order[p + 1] == f.blocks[order[p]].next.value
      {
        assert FallsOr(f, order, p, None);
      }
    }
  }

  // ---- a chain entered in its middle ----

  function JumpTo(id: InstrId, d: BlockId, cond: bool): Instr {
    Instr(id, Branch(Some(d)), cond, Info({}, {}, {}, {}, false, Unknown), None, (s: State) => !cond || s.regs(0) == 1, (s: State) => s)
  }

  /** Block 0 branches to block 2, or jumps to block 1, which falls through to block 2. */
  function MiddleFirst(): Cfg {
    Cfg(map[
      0 := Block([JumpTo(0, 2, true), JumpTo(1, 1, false)], None, None, []),
      1 := Block([], Some(2), None, [0]),
      2 := Block([], None, Some(1), [0])])
  }

  const MIDDLE_RANK: map<BlockId, nat> := map[0 := 0, 1 := 1, 2 := 0]

  /** What counts of it. */
  ghost predicate MiddleShape(f: Cfg) {
    && f.blocks.Keys == {0, 1, 2} && f.blocks[0].next == None && f.blocks[1].next == Some(2) && f.blocks[2].next == None
    && f.blocks[0].prev == None && f.blocks[1].prev == None && f.blocks[2].prev == Some(1)
    && EdgeList(f.blocks[0].instrs) == [2, 1] && EdgeList(f.blocks[1].instrs) == [] && EdgeList(f.blocks[2].instrs) == []
  }

  lemma MiddleProper()
    ensures MiddleShape(MiddleFirst())
  {
    var i, j := JumpTo(0, 2, true), JumpTo(1, 1, false);
    assert i.kind == Branch(Some(2)) && j.kind == Branch(Some(1));
    hide JumpTo;
    assert [i, j][..1] == [i] && [i][..0] == [];
    assert EdgeList([]) == [] && EdgeList([i]) == [] + [2] && EdgeList([i, j]) == EdgeList([i]) + [1];
    hide EdgeList;
  }

  lemma MiddleWhole(f: Cfg)
    requires MiddleShape(f)
    ensures Whole(f) && Chained(f) && EndsOn(f, MIDDLE_RANK)
  {
    hide EdgeList;
    assert EndsOn(f, MIDDLE_RANK);
    hide EndsOn;
    forall b | b in f.blocks ensures Followed(f, b, f.blocks.Keys) { MiddleFollowed(f, b); }
    hide Followed;
  }

  lemma MiddleFollowed(f: Cfg, b: BlockId)
    requires MiddleShape(f) && b in f.blocks
    ensures Followed(f, b, f.blocks.Keys)
  {
    hide EdgeList;
    assert forall d | d in [2, 1] :: d == 2 || d == 1;
  }

  lemma MiddleReachable(f: Cfg)
    requires MiddleShape(f)
    ensures Reachable(f, 0, 1)
  {
    forall bs | ClosedSet(f, bs) && 0 in bs ensures 1 in bs {
      assert Followed(f, 0, bs);
      assert [2, 1][1] in EdgeList(f.blocks[0].instrs);
    }
  }

  /** A block without a next one ends its chain. */
  lemma ChainLast(f: Cfg, r: map<BlockId, nat>, c: BlockId, order: seq<BlockId>, stack: seq<BlockId>)
    requires Whole(f) && EndsOn(f, r) && c in r && Members(stack) <= r.Keys && f.blocks[c].next.None?
    ensures ChainFrom(f, r, Some(c), order, stack)
              == if c in order then (order, stack) else (order + [c], stack + Pushed(EdgeList(f.blocks[c].instrs), c, Members(order) + {c}))
  {
    ChainStep(f, r, c, order, stack);
  }

  lemma MiddlePushed()
    ensures Pushed([2, 1], 0, Members([]) + {0}) == [1, 2]
    ensures forall b, v :: Pushed([], b, v) == []
  {
    assert Members([]) + {0} == {0};
    assert [2, 1][1..] == [1] && [1][1..] == [] && Pushed([1], 0, {0}) == [1];
  }

  lemma MiddleChains(f: Cfg, r: map<BlockId, nat>)
    requires MiddleShape(f) && Whole(f) && EndsOn(f, r) && r.Keys == f.blocks.Keys
    ensures Members([]) <= r.Keys && Members([1]) <= r.Keys
    ensures ChainFrom(f, r, Some(0), [], []) == ([0], [1, 2])
    ensures ChainFrom(f, r, Some(2), [0], [1]) == ([0, 2], [1])
    ensures ChainFrom(f, r, Some(1), [0, 2], []) == ([0, 2, 1], [])
  {
    hide Whole, EndsOn, ChainFrom;
    assert Members([]) == {} && Members([1]) == {1};
    MiddlePushed();
    hide Pushed;
    ChainLast(f, r, 0, [], []);
    ChainLast(f, r, 2, [0], [1]);
    ChainStep(f, r, 1, [0, 2], []);
    assert [0, 2] + [1] == [0, 2, 1] && [0, 2, 1][1] == 2;
    assert [] + Pushed(EdgeList(f.blocks[1].instrs), 1, Members([0, 2]) + {1}) == [];
    ChainLast(f, r, 2, [0, 2, 1], []);
    var c0, c2, c1 := ChainFrom(f, r, Some(0), [], []), ChainFrom(f, r, Some(2), [0], [1]), ChainFrom(f, r, Some(1), [0, 2], []);
    assert c0.0 == [0] && c0.1 == [1, 2];
    assert c2.0 == [0, 2] && c2.1 == [1];
    assert c1.0 == [0, 2, 1] && c1.1 == [];
  }

  lemma BehindHere(f: Cfg, r: map<BlockId, nat>, entry: BlockId, order: seq<BlockId>, stack: seq<BlockId>)
    requires Whole(f) && EndsOn(f, r) && Members(stack) <= r.Keys && stack != []
    requires var b := stack[|stack| - 1];
             b in f.blocks && b !in order && f.blocks[b].prev.Some? && f.blocks[b].prev.value !in order && Reachable(f, entry, f.blocks[b].prev.value)
    ensures EntersBehind(f, r, entry, order, stack)
  {
    hide Reachable;
  }

  lemma BehindNext(f: Cfg, r: map<BlockId, nat>, entry: BlockId, order: seq<BlockId>, stack: seq<BlockId>)
    requires Whole(f) && EndsOn(f, r) && Members(stack) <= r.Keys && stack != [] && stack[|stack| - 1] in f.blocks
    requires stack[|stack| - 1] !in order && Members(stack[..|stack| - 1]) <= r.Keys
    requires var (o, st) := ChainFrom(f, r, Some(stack[|stack| - 1]), order, stack[..|stack| - 1]); EntersBehind(f, r, entry, o, st)
    ensures EntersBehind(f, r, entry, order, stack)
  {
    hide Reachable;
  }

  lemma MiddleSearch(f: Cfg, r: map<BlockId, nat>)
    requires MiddleShape(f) && Whole(f) && EndsOn(f, r) && r.Keys == f.blocks.Keys
    ensures Members([0]) <= r.Keys
    ensures Search(f, r, [], [0]) == [0, 2, 1] && EntersBehind(f, r, 0, [], [0])
  {
    hide Whole, EndsOn, Reachable, ChainFrom, Search, EntersBehind, EdgeList, Pushed;
    MiddleChains(f, r);
    MiddleReachable(f);
    assert Members([0]) == {0} && Members([1, 2]) == {1, 2};
    assert [0][..0] == [] && [1, 2][..1] == [1] && [1][..0] == [];
    SearchPop(f, r, [], [0]);
    SearchPop(f, r, [0], [1, 2]);
    SearchPop(f, r, [0, 2], [1]);
    SearchEnds(f, r, [0, 2, 1]);
    BehindHere(f, r, 0, [0], [1, 2]);
    BehindNext(f, r, 0, [], [0]);
  }

  /** The search visits block 2 first, and block 1 after it cannot fall through to it any more. */
  lemma MiddleFirstBreaks()
    ensures var f := MiddleFirst();
            && Whole(f) && Chained(f) && EndsOn(f, MIDDLE_RANK) && Members([0]) <= MIDDLE_RANK.Keys
            && EntersBehind(f, MIDDLE_RANK, 0, [], [0])
            && Search(f, MIDDLE_RANK, [], [0]) == [0, 2, 1] && !FallsThrough(f, [0, 2, 1])
  {
    var f := MiddleFirst();
    MiddleProper();
    MiddleWhole(f);
    MiddleSearch(f, MIDDLE_RANK);
    hide Search, EntersBehind, EdgeList, MiddleFirst, Whole, Chained, EndsOn;
    assert f.blocks[[0, 2, 1][2]].next.Some?;
  }
}

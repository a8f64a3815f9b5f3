/** Chains of blocks: which have an end, and which close on themselves. */
module Chains {
  import opened Machine
  import opened Links

  /** The neighbour of a block in its chain, if it has one. */
  type Neighbours = map<BlockId, BlockId>

  /** The block n places behind b. */
  function Along(next: Neighbours, n: nat, b: BlockId): Option<BlockId> {
    if n == 0 then Some(b) else if b in next then Along(next, n - 1, next[b]) else None
  }

  ghost predicate HasEnd(next: Neighbours, b: BlockId) { exists n: nat :: Along(next, n, b).None? }

  ghost predicate ComesBack(next: Neighbours, b: BlockId) { exists n: nat :: n > 0 && Along(next, n, b) == Some(b) }

  /** No block comes behind two. */
  ghost predicate OneToOne(next: Neighbours) {
    forall b, c | b in next && c in next && next[b] == next[c] :: b == c
  }

  lemma {:induction false} AlongPlus(next: Neighbours, n: nat, m: nat, b: BlockId)
    ensures Along(next, n + m, b) == if Along(next, n, b).Some? then Along(next, m, Along(next, n, b).value) else None
  {
    if n > 0 && b in next { AlongPlus(next, n - 1, m, next[b]); }
  }

  lemma AlongBefore(next: Neighbours, n: nat, m: nat, b: BlockId)
    requires m <= n && Along(next, n, b).Some?
    ensures Along(next, m, b).Some? && (m < n ==> Along(next, m, b).value in next)
  {
    AlongPlus(next, m, n - m, b);
  }

  /** Two places a chain comes to are as far apart as its start and the place that far behind. */
  lemma {:induction false} SameAlong(next: Neighbours, i: nat, j: nat, b: BlockId)
    requires OneToOne(next) && i <= j && Along(next, i, b).Some? && Along(next, i, b) == Along(next, j, b)
    ensures Along(next, j - i, b) == Some(b)
  {
    if i > 0 {
      AlongPlus(next, i - 1, 1, b);
      AlongPlus(next, j - 1, 1, b);
      SameAlong(next, i - 1, j - 1, b);
    }
  }

  ghost predicate Passed(next: Neighbours, n: nat, b: BlockId, c: BlockId) {
    exists i: nat :: i < n && Along(next, i, b) == Some(c)
  }

  /** The blocks of a chain up to place n; all different, unless it comes back. */
  lemma {:induction false} Distinct(next: Neighbours, n: nat, b: BlockId) returns (s: set<BlockId>)
    requires OneToOne(next) && !ComesBack(next, b) && Along(next, n, b).Some?
    ensures |s| == n && s <= next.Keys
    ensures forall c :: c in s <==> Passed(next, n, b, c)
  {
    if n == 0 {
      s := {};
    } else {
      AlongBefore(next, n, n - 1, b);
      var c := Along(next, n - 1, b).value;
      var t := Distinct(next, n - 1, b);
      if c in t {
        assert Passed(next, n - 1, b, c);
        var i: nat :| i < n - 1 && Along(next, i, b) == Some(c);
        SameAlong(next, i, n - 1, b);
        assert ComesBack(next, b);
        assert false;
      }
      s := t + {c};
      forall d ensures d in s <==> Passed(next, n, b, d) {
        if Passed(next, n, b, d) {
          var i: nat :| i < n && Along(next, i, b) == Some(d);
          assert i < n - 1 ==> Passed(next, n - 1, b, d);
        }
      }
    }
  }

  lemma {:induction false} RoundAndRound(next: Neighbours, n: nat, k: nat, b: BlockId)
    requires n > 0 && Along(next, n, b) == Some(b)
    ensures Along(next, k, b).Some?
  {
    if k <= n {
      AlongBefore(next, n, k, b);
    } else {
      RoundAndRound(next, n, k - n, b);
      AlongPlus(next, n, k - n, b);
    }
  }

  /** A chain has an end if and only if it does not close on itself. */
  lemma EndIff(next: Neighbours, b: BlockId)
    requires OneToOne(next)
    ensures HasEnd(next, b) <==> !ComesBack(next, b)
  {
    if ComesBack(next, b) {
      var n: nat :| n > 0 && Along(next, n, b) == Some(b);
      forall k: nat ensures Along(next, k, b).Some? { RoundAndRound(next, n, k, b); }
    } else {
      var n := |next.Keys| + 1;
      if Along(next, n, b).Some? {
        var s := Distinct(next, n, b);
        Smaller(s, next.Keys);
        assert false;
      }
    }
  }

  lemma {:induction false} Smaller(s: set<BlockId>, t: set<BlockId>)
    requires s <= t
    ensures |s| <= |t|
  {
    if s != {} {
      var x :| x in s;
      Smaller(s - {x}, t - {x});
    }
  }

  // ---- read the other way ----

  ghost predicate Opposite(next: Neighbours, prev: Neighbours) {
    && (forall b | b in next :: next[b] in prev && prev[next[b]] == b)
    && (forall b | b in prev :: prev[b] in next && next[prev[b]] == b)
  }

  lemma {:induction false} AlongBack(next: Neighbours, prev: Neighbours, n: nat, b: BlockId, c: BlockId)
    requires Opposite(next, prev) && Along(next, n, b) == Some(c)
    ensures Along(prev, n, c) == Some(b)
  {
    if n > 0 {
      AlongBack(next, prev, n - 1, next[b], c);
      AlongPlus(prev, n - 1, 1, c);
    }
  }

  lemma ComesBackBoth(next: Neighbours, prev: Neighbours, b: BlockId)
    requires Opposite(next, prev)
    ensures ComesBack(next, b) <==> ComesBack(prev, b)
  {
    if n: nat :| n > 0 && Along(next, n, b) == Some(b) { AlongBack(next, prev, n, b, b); }
    if n: nat :| n > 0 && Along(prev, n, b) == Some(b) { AlongBack(prev, next, n, b, b); }
  }

  // ---- how long a chain is ----

  /** The places behind b. */
  ghost function Length(next: Neighbours, b: BlockId): (n: nat)
    requires HasEnd(next, b)
    ensures Along(next, n, b).Some? && Along(next, n + 1, b).None?
  {
    var k: nat :| Along(next, k, b).None?;
    EndBefore(next, k, b)
  }

  ghost function EndBefore(next: Neighbours, k: nat, b: BlockId): (n: nat)
    requires Along(next, k, b).None?
    ensures Along(next, n, b).Some? && Along(next, n + 1, b).None?
  {
    if Along(next, k - 1, b).Some? then k - 1 else EndBefore(next, k - 1, b)
  }

  lemma LengthNext(next: Neighbours, b: BlockId)
    requires b in next && HasEnd(next, b)
    ensures HasEnd(next, next[b]) && Length(next, next[b]) < Length(next, b)
  {
    var n := Length(next, b);
    AlongPlus(next, 1, n, b);
    AlongPlus(next, 1, n - 1, b);
    assert Along(next, n, next[b]).None?;
    var m := Length(next, next[b]);
    if m >= n { AlongBefore(next, m, n, next[b]); }
  }

  lemma EndNext(next: Neighbours, b: BlockId)
    requires b in next
    ensures HasEnd(next, next[b]) <==> HasEnd(next, b)
  {
    if HasEnd(next, b) { LengthNext(next, b); }
    if n: nat :| Along(next, n, next[b]).None? { assert Along(next, n + 1, b).None?; }
  }

  /** What falls when going along chains. */
  ghost predicate Falls(next: Neighbours, rank: map<BlockId, nat>) {
    forall b | b in rank && b in next :: next[b] in rank && rank[next[b]] < rank[b]
  }

  lemma {:induction false} FallEnds(next: Neighbours, rank: map<BlockId, nat>, b: BlockId)
    requires Falls(next, rank) && b in rank
    ensures Along(next, rank[b] + 1, b).None?
    decreases rank[b]
  {
    if b in next {
      FallEnds(next, rank, next[b]);
      if Along(next, rank[b], next[b]).Some? { AlongBefore(next, rank[b], rank[next[b]] + 1, next[b]); }
    }
  }

  ghost function Lengths(next: Neighbours, bs: set<BlockId>): (rank: map<BlockId, nat>)
    requires forall b | b in bs :: HasEnd(next, b)
    ensures rank.Keys == bs
  {
    map b | b in bs :: Length(next, b)
  }

  /** The chains from these blocks have ends if and only if something falls along them. */
  lemma FallsIff(next: Neighbours, bs: set<BlockId>)
    requires forall b | b in bs && b in next :: next[b] in bs
    ensures (forall b | b in bs :: HasEnd(next, b)) <==> exists rank: map<BlockId, nat> :: rank.Keys == bs && Falls(next, rank)
  {
    if forall b | b in bs :: HasEnd(next, b) {
      var rank := Lengths(next, bs);
      forall b | b in rank && b in next ensures next[b] in rank && rank[next[b]] < rank[b] { LengthNext(next, b); }
      assert rank.Keys == bs && Falls(next, rank);
    }
    if rank: map<BlockId, nat> :| rank.Keys == bs && Falls(next, rank) {
      forall b | b in bs ensures HasEnd(next, b) { FallEnds(next, rank, b); }
    }
  }

  // ---- the chains of a graph ----

  function NextOf(f: Cfg): Neighbours { map b | b in f.blocks && f.blocks[b].next.Some? :: f.blocks[b].next.value }
  function PrevOf(f: Cfg): Neighbours { map b | b in f.blocks && f.blocks[b].prev.Some? :: f.blocks[b].prev.value }

  lemma ChainedOpposite(f: Cfg)
    requires Chained(f)
    ensures Opposite(NextOf(f), PrevOf(f)) && OneToOne(NextOf(f)) && OneToOne(PrevOf(f))
  {
  }

  /** Chains of a graph have ends if and only if none closes on itself. */
  lemma GraphEndIff(f: Cfg, b: BlockId)
    requires Chained(f)
    ensures HasEnd(NextOf(f), b) <==> !ComesBack(NextOf(f), b)
    ensures HasEnd(NextOf(f), b) <==> !ComesBack(PrevOf(f), b)
  {
    ChainedOpposite(f);
    EndIff(NextOf(f), b);
    ComesBackBoth(NextOf(f), PrevOf(f), b);
  }
}

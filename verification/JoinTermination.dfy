/** The rank of byte arrays: how much a state says. No join raises it; which reported changes lower it. */
module JoinTermination {
  import B = ProgramState
  import M = MergeElements

  // ---- the rank of a byte array ----

  function RankTotal(es: seq<B.Elem>): nat {
    if es == [] then 0 else M.Rank(es[0].ty) + RankTotal(es[1..])
  }

  lemma {:induction false} RankTotalFalls(l: seq<B.Elem>, m: seq<B.Elem>)
    requires |l| == |m| && forall k | 0 <= k < |l| :: M.Rank(m[k].ty) <= M.Rank(l[k].ty)
    ensures RankTotal(m) <= RankTotal(l) <= 2 * |l|
    ensures RankTotal(m) < RankTotal(l) <==> exists k :: 0 <= k < |l| && M.Rank(m[k].ty) < M.Rank(l[k].ty)
  {
    if l != [] {
      var l1, m1 := l[1..], m[1..];
      assert forall k | 0 <= k < |l1| :: M.Rank(m1[k].ty) <= M.Rank(l1[k].ty);
      RankTotalFalls(l1, m1);
      if k :| 0 <= k < |l| && M.Rank(m[k].ty) < M.Rank(l[k].ty) {
        assert k > 0 ==> M.Rank(m1[k - 1].ty) < M.Rank(l1[k - 1].ty);
      }
      if k :| 0 <= k < |l1| && M.Rank(m1[k].ty) < M.Rank(l1[k].ty) {
        assert M.Rank(m[k + 1].ty) < M.Rank(l[k + 1].ty);
      }
    }
  }

  /** A dead byte that the join has made unknown. */
  predicate Revived(l: seq<B.Elem>, m: seq<B.Elem>, k: int)
    requires |l| == |m|
  {
    0 <= k < |l| && l[k].ty == B.Dead && m[k].ty == B.Unknown
  }

  /** No join raises the rank, and a reported change lowers it unless all the report is about is dead
      bytes that became unknown. */
  lemma ReportLowersRankIff(l: seq<B.Elem>, r: seq<B.Elem>)
    requires |l| == |r| && B.HeadsOk(l) && B.HeadsOk(r)
    ensures RankTotal(M.Merge(l, r).0) <= RankTotal(l)
    ensures M.Merge(l, r).1 <==>
              RankTotal(M.Merge(l, r).0) < RankTotal(l) || exists k :: Revived(l, M.Merge(l, r).0, k)
  {
    M.MergeReports(l, r);
    hide M.Merge;
    var m := M.Merge(l, r).0;
    RankTotalFalls(l, m);
    if k :| M.DroppedAt(l, m, k) {
      assert M.Rank(m[k].ty) < M.Rank(l[k].ty) || Revived(l, m, k);
    }
    if k :| 0 <= k < |l| && M.Rank(m[k].ty) < M.Rank(l[k].ty) {
      assert M.DroppedAt(l, m, k);
    }
    if k :| Revived(l, m, k) {
      assert M.DroppedAt(l, m, k);
    }
  }

  lemma MergedRank(l: seq<B.Elem>, r: seq<B.Elem>, m: seq<B.Elem>, k: nat)
    requires k < |l| == |r| == |m| && M.MergedByte(l, r, m, k)
    ensures M.Rank(m[k].ty) <= M.Rank(l[k].ty)
  {
  }

  lemma SameByteDescribes(l: seq<B.Elem>, r: seq<B.Elem>, m: seq<B.Elem>, cs: seq<B.CByte>, env: B.Env, k: nat)
    requires k < |l| == |r| == |m| == |cs| && M.MergedByte(l, r, m, k) && M.Rank(m[k].ty) >= M.Rank(l[k].ty)
    requires B.ByteDescribed(m, cs, env, k)
    ensures B.ByteDescribed(l, cs, env, k)
  {
    if B.IsPtr(B.TypeAt(l, k)) {
      assert m[k..k + 8] == l[k..k + 8];
    }
  }

  /** Without a rank drop only the reasons for knowing nothing have changed. */
  lemma SameRankDescribes(l: seq<B.Elem>, r: seq<B.Elem>, cs: seq<B.CByte>, env: B.Env)
    requires |l| == |r| && B.HeadsOk(l) && B.HeadsOk(r) && RankTotal(M.Merge(l, r).0) >= RankTotal(l)
    requires B.Describes(M.Merge(l, r).0, cs, env)
    ensures B.Describes(l, cs, env)
  {
    hide M.Merge, M.MergedByte, B.ByteDescribed, B.HeadsOk;
    M.MergeFacts(l, r);
    var m := M.Merge(l, r).0;
    forall k | 0 <= k < |l| ensures M.Rank(m[k].ty) <= M.Rank(l[k].ty) { MergedRank(l, r, m, k); }
    RankTotalFalls(l, m);
    forall k | 0 <= k < |l| ensures B.ByteDescribed(l, cs, env, k) {
      assert B.ByteDescribed(m, cs, env, k);
      SameByteDescribes(l, r, m, cs, env, k);
    }
  }
}

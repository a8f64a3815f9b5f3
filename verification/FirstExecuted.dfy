/** Two places of one graph, entered in the same state, run alike exactly if they come together before
    anything is executed. For a chain of blocks above another block: exactly if it never executes anything. */
module FirstExecuted {
  import opened Machine
  import opened Links
  import opened Simulation
  import G = Surgery

  /** Nothing is executed in the first n steps. */
  ghost predicate Quiet(f: Cfg, n: nat, c: Config) { Log(Graph(f), n, c) == [] }

  ghost predicate MeetAt(f: Cfg, n: nat, c: Config, n': nat, c': Config) {
    Quiet(f, n, c) && Quiet(f, n', c') && Go(Graph(f), n, c) == Go(Graph(f), n', c')
  }

  /** Before anything is executed, both come to one place. */
  ghost predicate Meet(f: Cfg, c: Config, c': Config) {
    exists n: nat, n': nat :: MeetAt(f, n, c, n', c')
  }

  /** Nothing is ever executed, and there is no end. */
  ghost predicate Idle(f: Cfg, c: Config) {
    forall n: nat :: IdleFor(f, n, c)
  }

  ghost predicate IdleFor(f: Cfg, n: nat, c: Config) {
    Quiet(f, n, c) && Go(Graph(f), n, c).At?
  }

  lemma {:induction false} QuietBefore(f: Cfg, k: nat, n: nat, c: Config)
    requires Quiet(f, n, c) && k <= n
    ensures Quiet(f, k, c) && (Go(Graph(f), n, c).At? ==> Go(Graph(f), k, c).At?)
  {
    GoSplit(Graph(f), k, n - k, c);
    StaysEnded(f, n - k, Go(Graph(f), k, c));
  }

  lemma {:induction false} StaysEnded(f: Cfg, n: nat, c: Config)
    ensures !c.At? ==> Go(Graph(f), n, c) == c && Log(Graph(f), n, c) == []
  {
    if n > 0 {
      StaysEnded(f, n - 1, Step(f, c));
    }
  }

  lemma MeetRefines(f: Cfg, n: nat, c: Config, n': nat, c': Config)
    requires MeetAt(f, n, c, n', c') && c.At? && c'.At?
    ensures Refines(Graph(f), c, Graph(f), c')
  {
    var m := Graph(f);
    forall k: nat ensures Keeps(m, k, c, m, c') {
      if k >= n {
        GoSplit(m, n, k - n, c);
        GoSplit(m, n', k - n, c');
        assert SameSoFar(m, k, c, m, n' + (k - n), c');
      } else {
        QuietBefore(f, k, n, c);
        if Go(m, k, c).At? {
          assert SameSoFar(m, k, c, m, 0, c');
        } else {
          GoSplit(m, k, n - k, c);
          StaysEnded(f, n - k, Go(m, k, c));
          assert SameSoFar(m, k, c, m, n', c');
        }
      }
    }
  }

  lemma MeetTurned(f: Cfg, c: Config, c': Config)
    requires Meet(f, c, c')
    ensures Meet(f, c', c)
  {
    var n: nat, n': nat :| MeetAt(f, n, c, n', c');
    assert MeetAt(f, n', c', n, c);
  }

  lemma MeetSame(f: Cfg, c: Config, c': Config)
    requires Meet(f, c, c') && c.At? && c'.At?
    ensures G.SameFrom(f, f, c, c')
  {
    var n: nat, n': nat :| MeetAt(f, n, c, n', c');
    MeetRefines(f, n, c, n', c');
    MeetRefines(f, n', c', n, c);
  }

  lemma IdleRefines(f: Cfg, c: Config, c': Config)
    requires Idle(f, c) && c'.At?
    ensures Refines(Graph(f), c, Graph(f), c')
  {
    var m := Graph(f);
    forall k: nat ensures Keeps(m, k, c, m, c') {
      assert IdleFor(f, k, c);
      assert SameSoFar(m, k, c, m, 0, c');
    }
  }

  /** What is executed, and in which state, tells where. */
  lemma OnePlace(f: Cfg, c: Config, c': Config)
    requires UniqueIds(f) && Recorded(f, c) == Recorded(f, c') != []
    ensures c == c'
  {
    var i, i' := f.blocks[c.block].instrs[c.pc], f.blocks[c'.block].instrs[c'.pc];
    assert i.id == i'.id && c.s == c'.s;
    assert i.id in Ids(f.blocks[c.block].instrs) && i'.id in Ids(f.blocks[c'.block].instrs);
    assert c.block == c'.block;
    assert DistinctIds(f.blocks[c.block].instrs);
  }

  /** Where the first thing of a run gets executed. */
  lemma {:induction false} FirstOf(f: Cfg, n: nat, c: Config) returns (k: nat)
    requires Log(Graph(f), n, c) != []
    ensures k < n && Quiet(f, k, c) && Recorded(f, Go(Graph(f), k, c)) == [Log(Graph(f), n, c)[0]]
  {
    if Recorded(f, c) != [] {
      k := 0;
    } else {
      var j := FirstOf(f, n - 1, Step(f, c));
      k := j + 1;
    }
  }

  /** A run that ends or executes something, and one doing the same from another place, meet. */
  lemma ActiveMeets(f: Cfg, n: nat, c: Config, c': Config)
    requires UniqueIds(f) && Refines(Graph(f), c, Graph(f), c') && !IdleFor(f, n, c)
    ensures Meet(f, c, c')
  {
    var m := Graph(f);
    assert Keeps(m, n, c, m, c');
    var n': nat :| SameSoFar(m, n, c, m, n', c');
    if Quiet(f, n, c) {
      assert MeetAt(f, n, c, n', c');
    } else {
      var k := FirstOf(f, n, c);
      var k' := FirstOf(f, n', c');
      OnePlace(f, Go(m, k, c), Go(m, k', c'));
      assert MeetAt(f, k, c, k', c');
    }
  }

  /** Runs from two places are the same exactly if they meet before anything is executed, or if there is
      nothing to see of either. */
  lemma SameIffMeet(f: Cfg, c: Config, c': Config)
    requires UniqueIds(f) && c.At? && c'.At?
    ensures G.SameFrom(f, f, c, c') <==> Meet(f, c, c') || (Idle(f, c) && Idle(f, c'))
  {
    hide UniqueIds, MeetAt, IdleFor, Refines;
    if Meet(f, c, c') {
      MeetSame(f, c, c');
    } else if Idle(f, c) && Idle(f, c') {
      IdleRefines(f, c, c');
      IdleRefines(f, c', c);
    } else if G.SameFrom(f, f, c, c') {
      if !Idle(f, c) {
        var n: nat :| !IdleFor(f, n, c);
        ActiveMeets(f, n, c, c');
      } else {
        var n: nat :| !IdleFor(f, n, c');
        ActiveMeets(f, n, c', c);
        MeetTurned(f, c', c);
      }
    }
  }

  // ---- a chain of blocks above a block ----

  /** The blocks of the path follow each other, and only the first may be branched to. */
  ghost predicate Above(f: Cfg, path: seq<BlockId>) {
    && path != []
    && (forall k | 0 <= k < |path| :: path[k] in f.blocks)
    && (forall j, k | 0 <= j < k < |path| :: path[j] != path[k])
    && (forall k | 0 < k < |path| :: Follower(f, path[k - 1], path[k]))
  }

  ghost predicate Follower(f: Cfg, b: BlockId, n: BlockId) {
    b in f.blocks && f.blocks[b].next == Some(n) && G.NoBranchTo(f, n)
  }

  /** No instruction of the block executes in this state. */
  ghost predicate Dormant(f: Cfg, b: BlockId, s: State) {
    b in f.blocks && forall k | 0 <= k < |f.blocks[b].instrs| :: !f.blocks[b].instrs[k].holds(s)
  }

  /** No instruction above the last block of the path ever executes. */
  ghost predicate NeverExecutes(f: Cfg, path: seq<BlockId>) {
    forall s: State, k | 0 <= k < |path| - 1 :: Dormant(f, path[k], s)
  }

  lemma {:induction false} PassBlock(f: Cfg, b: BlockId, n: BlockId, j: nat, s: State)
    requires Dormant(f, b, s) && f.blocks[b].next == Some(n) && j <= |f.blocks[b].instrs|
    ensures MeetAt(f, |f.blocks[b].instrs| - j + 1, At(b, j, s), 0, At(n, 0, s))
    decreases |f.blocks[b].instrs| - j
  {
    var m, k := Graph(f), |f.blocks[b].instrs| - j;
    if k == 0 {
      GoOne(m, At(b, j, s));
    } else {
      PassBlock(f, b, n, j + 1, s);
      assert Go(m, k + 1, At(b, j, s)) == Go(m, k, At(b, j + 1, s));
    }
  }

  lemma MeetTwice(f: Cfg, j: nat, c: Config, d: Config, k: nat, e: Config)
    requires MeetAt(f, j, c, 0, d) && MeetAt(f, k, d, 0, e)
    ensures MeetAt(f, j + k, c, 0, e)
  {
    GoSplit(Graph(f), j, k, c);
  }

  lemma {:induction false} DormantPasses(f: Cfg, path: seq<BlockId>, j: nat, s: State) returns (n: nat)
    requires Above(f, path) && j < |path| && forall k | j <= k < |path| - 1 :: Dormant(f, path[k], s)
    ensures MeetAt(f, n, At(path[j], 0, s), 0, At(path[|path| - 1], 0, s))
    decreases |path| - j
  {
    if j == |path| - 1 {
      n := 0;
    } else {
      assert Follower(f, path[j], path[j + 1]);
      PassBlock(f, path[j], path[j + 1], 0, s);
      var k := DormantPasses(f, path, j + 1, s);
      MeetTwice(f, |f.blocks[path[j]].instrs| + 1, At(path[j], 0, s), At(path[j + 1], 0, s), k, At(path[|path| - 1], 0, s));
      n := |f.blocks[path[j]].instrs| + 1 + k;
    }
  }

  /** The first instruction on the path that executes in this state. */
  ghost predicate Obstacle(f: Cfg, path: seq<BlockId>, m: nat, j: nat, s: State) {
    && Above(f, path) && m < |path| - 1 && j < |f.blocks[path[m]].instrs| && f.blocks[path[m]].instrs[j].holds(s)
    && (forall k | 0 <= k < m :: Dormant(f, path[k], s))
    && (forall k | 0 <= k < j :: !f.blocks[path[m]].instrs[k].holds(s))
  }

  lemma {:induction false} FindInstr(f: Cfg, b: BlockId, s: State, k: nat) returns (j: nat)
    requires b in f.blocks && k < |f.blocks[b].instrs| && f.blocks[b].instrs[k].holds(s)
    ensures j < |f.blocks[b].instrs| && f.blocks[b].instrs[j].holds(s)
    ensures forall i | 0 <= i < j :: !f.blocks[b].instrs[i].holds(s)
  {
    if i: nat :| i < k && f.blocks[b].instrs[i].holds(s) {
      j := FindInstr(f, b, s, i);
    } else {
      j := k;
    }
  }

  lemma {:induction false} FindObstacle(f: Cfg, path: seq<BlockId>, k: nat, s: State) returns (m: nat, j: nat)
    requires Above(f, path) && k < |path| - 1 && !Dormant(f, path[k], s)
    ensures Obstacle(f, path, m, j, s)
  {
    if i: nat :| i < k && !Dormant(f, path[i], s) {
      m, j := FindObstacle(f, path, i, s);
    } else {
      m := k;
      var i: nat :| i < |f.blocks[path[k]].instrs| && f.blocks[path[k]].instrs[i].holds(s);
      j := FindInstr(f, path[k], s, i);
    }
  }

  /** Not on the path beyond the obstacle. */
  ghost predicate Before(f: Cfg, path: seq<BlockId>, m: nat, j: nat, s: State, c: Config) {
    c.At? ==> c.s == s && forall k | 0 <= k < |path| && path[k] == c.block :: k < m || (k == m && c.pc <= j)
  }

  /** Known branches change nothing but where control is. */
  ghost predicate BranchesStill(f: Cfg) {
    forall b, k | b in f.blocks && 0 <= k < |f.blocks[b].instrs| && f.blocks[b].instrs[k].kind.Branch? :: G.Still(f.blocks[b].instrs[k])
  }

  /** A place on the path that control comes to other than by falling through is its beginning. */
  lemma EnteredFirst(f: Cfg, path: seq<BlockId>, k: nat, b: BlockId, j: nat)
    requires Above(f, path) && k < |path| && b in f.blocks && j < |f.blocks[b].instrs|
    ensures f.blocks[b].instrs[j].kind == Branch(Some(path[k])) ==> k == 0
  {
    assert k > 0 ==> Follower(f, path[k - 1], path[k]);
  }

  lemma FallsFirst(f: Cfg, path: seq<BlockId>, k: nat, b: BlockId)
    requires Above(f, path) && Chained(f) && k < |path| && b in f.blocks && f.blocks[b].next == Some(path[k])
    ensures k == 0 || b == path[k - 1]
  {
    if k > 0 {
      assert Follower(f, path[k - 1], path[k]);
    }
  }

  lemma QuietStepBefore(f: Cfg, path: seq<BlockId>, m: nat, j: nat, s: State, c: Config)
    requires Obstacle(f, path, m, j, s) && Chained(f) && BranchesStill(f) && Before(f, path, m, j, s, c) && Recorded(f, c) == []
    ensures Before(f, path, m, j, s, Step(f, c))
  {
    var d := Step(f, c);
    if c.At? && d.At? {
      var b := f.blocks[c.block];
      if c.pc < |b.instrs| {
        var i := b.instrs[c.pc];
        if i.holds(s) {
          assert G.Still(i) && d == At(i.kind.edge.value, 0, s);
          forall k | 0 <= k < |path| && path[k] == d.block ensures k < m || (k == m && d.pc <= j) {
            EnteredFirst(f, path, k, c.block, c.pc);
          }
        } else {
          assert d == At(c.block, c.pc + 1, s);
        }
      } else {
        forall k | 0 <= k < |path| && path[k] == d.block ensures k < m || (k == m && d.pc <= j) {
          FallsFirst(f, path, k, c.block);
        }
      }
    }
  }

  lemma {:induction false} QuietStaysBefore(f: Cfg, path: seq<BlockId>, m: nat, j: nat, s: State, n: nat, c: Config)
    requires Obstacle(f, path, m, j, s) && Chained(f) && BranchesStill(f) && Before(f, path, m, j, s, c) && Quiet(f, n, c)
    ensures Before(f, path, m, j, s, Go(Graph(f), n, c))
  {
    hide Obstacle, Chained, BranchesStill, Before, Step, Recorded;
    if n > 0 {
      QuietStepBefore(f, path, m, j, s, c);
      QuietStaysBefore(f, path, m, j, s, n - 1, Step(f, c));
    }
  }

  /** The block starts with an instruction that executes whenever it is entered. */
  ghost predicate Opens(f: Cfg, b: BlockId) {
    && b in f.blocks && f.blocks[b].instrs != []
    && var i := f.blocks[b].instrs[0]; !(i.kind.Branch? && i.kind.edge.Some?) && forall s: State :: i.holds(s)
  }

  /** An instruction above the last block that executes keeps control from getting there unnoticed. */
  lemma ObstacleHolds(f: Cfg, path: seq<BlockId>, k: nat, s: State, n: nat)
    requires Chained(f) && BranchesStill(f) && Above(f, path) && k < |path| - 1 && !Dormant(f, path[k], s)
    requires Quiet(f, n, At(path[0], 0, s))
    ensures Go(Graph(f), n, At(path[0], 0, s)) != At(path[|path| - 1], 0, s)
  {
    hide Chained, BranchesStill;
    var i, j := FindObstacle(f, path, k, s);
    QuietStaysBefore(f, path, i, j, s, n, At(path[0], 0, s));
    assert !Before(f, path, i, j, s, At(path[|path| - 1], 0, s));
  }

  lemma OpensRecorded(f: Cfg, b: BlockId, s: State, n: nat)
    requires Opens(f, b)
    ensures !IdleFor(f, 1, At(b, 0, s)) && (Quiet(f, n, At(b, 0, s)) ==> n == 0)
  {
    GoOne(Graph(f), At(b, 0, s));
    assert n > 0 ==> Log(Graph(f), n, At(b, 0, s)) == Recorded(f, At(b, 0, s)) + Log(Graph(f), n - 1, Step(f, At(b, 0, s)));
  }

  /** Entering a path at its beginning or at its last block is the same in a state exactly if nothing above
      that block executes in it. */
  lemma DormantIff(f: Cfg, path: seq<BlockId>, s: State)
    requires UniqueIds(f) && Chained(f) && BranchesStill(f) && Above(f, path) && Opens(f, path[|path| - 1])
    ensures G.SameFrom(f, f, At(path[|path| - 1], 0, s), At(path[0], 0, s)) <==> forall k | 0 <= k < |path| - 1 :: Dormant(f, path[k], s)
  {
    var e, q := At(path[|path| - 1], 0, s), At(path[0], 0, s);
    hide UniqueIds, Chained, BranchesStill, Opens, IdleFor;
    SameIffMeet(f, e, q);
    OpensRecorded(f, path[|path| - 1], s, 0);
    if forall k | 0 <= k < |path| - 1 :: Dormant(f, path[k], s) {
      var n := DormantPasses(f, path, 0, s);
      assert MeetAt(f, 0, e, n, q);
    } else {
      var k: nat :| k < |path| - 1 && !Dormant(f, path[k], s);
      forall n: nat, n': nat ensures !MeetAt(f, n, e, n', q) {
        OpensRecorded(f, path[|path| - 1], s, n);
        if Quiet(f, n', q) { ObstacleHolds(f, path, k, s, n'); }
      }
    }
  }

  /** The same for all states. */
  lemma NeverExecutesIff(f: Cfg, path: seq<BlockId>)
    requires UniqueIds(f) && Chained(f) && BranchesStill(f) && Above(f, path) && Opens(f, path[|path| - 1])
    ensures (forall s: State :: G.SameFrom(f, f, At(path[|path| - 1], 0, s), At(path[0], 0, s))) <==> NeverExecutes(f, path)
  {
    hide UniqueIds, Chained, BranchesStill, Opens, G.SameFrom, Dormant;
    var e, q := path[|path| - 1], path[0];
    if NeverExecutes(f, path) {
      forall s: State ensures G.SameFrom(f, f, At(e, 0, s), At(q, 0, s)) { DormantIff(f, path, s); }
    }
    if forall s: State :: G.SameFrom(f, f, At(e, 0, s), At(q, 0, s)) {
      forall s: State, k | 0 <= k < |path| - 1 ensures Dormant(f, path[k], s) { DormantIff(f, path, s); }
    }
  }
}

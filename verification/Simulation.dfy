/** Two ways of running code do the same: for every run of one, however long, there is a run of the
    other that executes the same instructions in the same states and has ended if that one has. */
module Simulation {
  import opened Machine

  /** An instruction executed in a state, or unknown code entered from it. Branches to known blocks are
      not recorded: a pass may drop, add and invert them. */
  datatype Executed = Ran(instr: Instr, s: State) | Jumped(id: InstrId, s: State)

  datatype System = System(step: Config -> Config, log: Config -> seq<Executed>)

  function Go(m: System, n: nat, c: Config): Config {
    if n == 0 then c else Go(m, n - 1, m.step(c))
  }

  function Log(m: System, n: nat, c: Config): seq<Executed> {
    if n == 0 then [] else m.log(c) + Log(m, n - 1, m.step(c))
  }

  lemma GoOne(m: System, c: Config)
    ensures Go(m, 1, c) == m.step(c) && Log(m, 1, c) == m.log(c)
    ensures Go(m, 0, c) == c && Log(m, 0, c) == []
  {
    assert Go(m, 0, m.step(c)) == m.step(c) && Log(m, 0, m.step(c)) == [];
  }

  function Record(i: Instr, s: State): seq<Executed> {
    if !i.holds(s) || (i.kind.Branch? && i.kind.edge.Some?) then []
    else if i.kind.Branch? then [Jumped(i.id, s)]
    else [Ran(i, s)]
  }

  function Recorded(f: Cfg, c: Config): seq<Executed> {
    if c.At? && c.block in f.blocks && c.pc < |f.blocks[c.block].instrs|
    then Record(f.blocks[c.block].instrs[c.pc], c.s) else []
  }

  /** The graph as it runs. */
  function Graph(f: Cfg): System {
    System(c => Step(f, c), c => Recorded(f, c))
  }

  ghost predicate Alike(c: Config, c': Config) {
    c.At? == c'.At? && (!c.At? ==> c == c')
  }

  ghost predicate SameSoFar(m: System, n: nat, c: Config, m': System, n': nat, c': Config) {
    Log(m, n, c) == Log(m', n', c') && Alike(Go(m, n, c), Go(m', n', c'))
  }

  ghost predicate Keeps(m: System, n: nat, c: Config, m': System, c': Config) {
    exists n': nat :: SameSoFar(m, n, c, m', n', c')
  }

  /** Whatever m does from c, m' does from c'. */
  ghost predicate Refines(m: System, c: Config, m': System, c': Config) {
    forall n: nat :: Keeps(m, n, c, m', c')
  }

  ghost predicate Equivalent(m: System, c: Config, m': System, c': Config) {
    Refines(m, c, m', c') && Refines(m', c', m, c)
  }

  // ---- proving it step by step ----

  type Relation = (Config, Config) -> bool

  /** k steps of m' from c' match one step of m from c. */
  ghost predicate Follows(m: System, m': System, r: Relation, c: Config, c': Config, k: nat) {
    r(m.step(c), Go(m', k, c')) && m.log(c) == Log(m', k, c')
  }

  ghost predicate Matched(m: System, m': System, r: Relation, c: Config, c': Config) {
    Alike(c, c') && exists k: nat :: Follows(m, m', r, c, c', k)
  }

  ghost predicate Simulates(m: System, m': System, r: Relation) {
    forall c, c' | r(c, c') :: Matched(m, m', r, c, c')
  }

  lemma {:induction false} GoSplit(m: System, j: nat, k: nat, c: Config)
    ensures Go(m, j + k, c) == Go(m, k, Go(m, j, c)) && Log(m, j + k, c) == Log(m, j, c) + Log(m, k, Go(m, j, c))
  {
    if j > 0 {
      GoSplit(m, j - 1, k, m.step(c));
    }
  }

  /** A simulation carries over to runs of every length. */
  lemma {:induction false} SimulatesRun(m: System, m': System, r: Relation, n: nat, c: Config, c': Config) returns (n': nat)
    requires Simulates(m, m', r) && r(c, c')
    ensures SameSoFar(m, n, c, m', n', c') && r(Go(m, n, c), Go(m', n', c'))
  {
    assert Matched(m, m', r, c, c');
    if n == 0 {
      n' := 0;
    } else {
      var k: nat :| Follows(m, m', r, c, c', k);
      var j := SimulatesRun(m, m', r, n - 1, m.step(c), Go(m', k, c'));
      GoSplit(m', k, j, c');
      n' := k + j;
    }
  }

  lemma SimulationRefines(m: System, m': System, r: Relation, c: Config, c': Config)
    requires Simulates(m, m', r) && r(c, c')
    ensures Refines(m, c, m', c')
  {
    forall n: nat ensures Keeps(m, n, c, m', c') {
      var n' := SimulatesRun(m, m', r, n, c, c');
    }
  }

  lemma RefinesTwice(m: System, c: Config, m1: System, c1: Config, m2: System, c2: Config)
    requires Refines(m, c, m1, c1) && Refines(m1, c1, m2, c2)
    ensures Refines(m, c, m2, c2)
  {
    forall n: nat ensures Keeps(m, n, c, m2, c2) {
      assert Keeps(m, n, c, m1, c1);
      var n1: nat :| SameSoFar(m, n, c, m1, n1, c1);
      assert Keeps(m1, n1, c1, m2, c2);
      var n2: nat :| SameSoFar(m1, n1, c1, m2, n2, c2);
      assert SameSoFar(m, n, c, m2, n2, c2);
    }
  }

  lemma EquivalentTwice(m: System, c: Config, m1: System, c1: Config, m2: System, c2: Config)
    requires Equivalent(m, c, m1, c1) && Equivalent(m1, c1, m2, c2)
    ensures Equivalent(m, c, m2, c2)
  {
    hide Refines;
    RefinesTwice(m, c, m1, c1, m2, c2);
    RefinesTwice(m2, c2, m1, c1, m, c);
  }

  lemma EquivalentSelf(m: System, c: Config)
    ensures Equivalent(m, c, m, c)
  {
    forall n: nat ensures Keeps(m, n, c, m, c) {
      assert SameSoFar(m, n, c, m, n, c);
    }
  }

  // ---- what a caller sees of it ----

  /** The events of a trace other than branch decisions. */
  function Visible(t: seq<Event>): seq<Event> {
    if t == [] then [] else (if t[0].Decision? then [] else [t[0]]) + Visible(t[1..])
  }

  lemma {:induction false} VisibleAppend(t: seq<Event>, u: seq<Event>)
    ensures Visible(t + u) == Visible(t) + Visible(u)
  {
    if t == [] {
      assert t + u == u;
    } else {
      assert (t + u)[1..] == t[1..] + u;
      VisibleAppend(t[1..], u);
    }
  }

  function EventOf(a: Abi, e: Executed): seq<Event> {
    match e
    case Ran(i, s) => InstrEvent(a, i, s)
    case Jumped(id, s) => [Leave(id, Values(s, a.allRegs), s.mem)]
  }

  function EventsOf(a: Abi, l: seq<Executed>): seq<Event> {
    if l == [] then [] else EventOf(a, l[0]) + EventsOf(a, l[1..])
  }

  lemma {:induction false} EventsOfAppend(a: Abi, k: seq<Executed>, l: seq<Executed>)
    ensures EventsOf(a, k + l) == EventsOf(a, k) + EventsOf(a, l)
  {
    if k == [] {
      assert k + l == l;
    } else {
      assert (k + l)[1..] == k[1..] + l;
      EventsOfAppend(a, k[1..], l);
    }
  }

  lemma RecordIsVisible(a: Abi, i: Instr, s: State)
    ensures EventsOf(a, Record(i, s)) == Visible(InstrEvent(a, i, s))
  {
    var l, t := Record(i, s), InstrEvent(a, i, s);
    assert l == [] || l[1..] == [];
    assert t == [] || t[1..] == [];
  }

  /** What was executed determines what was visible. */
  lemma {:induction false} LogIsVisible(a: Abi, f: Cfg, n: nat, c: Config)
    ensures EventsOf(a, Log(Graph(f), n, c)) == Visible(Trace(a, f, n, c))
    ensures Go(Graph(f), n, c) == Run(f, n, c)
  {
    if n > 0 {
      var m := Graph(f);
      LogIsVisible(a, f, n - 1, Step(f, c));
      EventsOfAppend(a, m.log(c), Log(m, n - 1, m.step(c)));
      VisibleAppend(Events(a, f, c), Trace(a, f, n - 1, Step(f, c)));
      if Recorded(f, c) != [] || Events(a, f, c) != [] {
        RecordIsVisible(a, f.blocks[c.block].instrs[c.pc], c.s);
      }
    }
  }

  /** Runs of the two graphs end in the same way with the same visible events. */
  ghost predicate SameSight(a: Abi, f: Cfg, n: nat, c: Config, g: Cfg, m: nat, c': Config) {
    Visible(Trace(a, f, n, c)) == Visible(Trace(a, g, m, c')) && SameEnd(a, Run(f, n, c), Run(g, m, c'))
  }

  ghost predicate Seen(a: Abi, f: Cfg, n: nat, c: Config, g: Cfg, c': Config) {
    exists m: nat :: SameSight(a, f, n, c, g, m, c')
  }

  ghost predicate Visibly(a: Abi, f: Cfg, c: Config, g: Cfg, c': Config) {
    forall n: nat :: Seen(a, f, n, c, g, c')
  }

  /** Stores, returns and departures, with the values a caller or callee reads, are the same. */
  ghost predicate LooksSame(a: Abi, f: Cfg, c: Config, g: Cfg, c': Config) {
    Visibly(a, f, c, g, c') && Visibly(a, g, c', f, c)
  }

  lemma AlikeSameEnd(a: Abi, c: Config, c': Config)
    requires Alike(c, c')
    ensures SameEnd(a, c, c')
  {
  }

  lemma RefinesVisibly(a: Abi, f: Cfg, c: Config, g: Cfg, c': Config)
    requires Refines(Graph(f), c, Graph(g), c')
    ensures Visibly(a, f, c, g, c')
  {
    forall n: nat ensures Seen(a, f, n, c, g, c') {
      assert Keeps(Graph(f), n, c, Graph(g), c');
      var m: nat :| SameSoFar(Graph(f), n, c, Graph(g), m, c');
      LogIsVisible(a, f, n, c);
      LogIsVisible(a, g, m, c');
      AlikeSameEnd(a, Run(f, n, c), Run(g, m, c'));
      assert SameSight(a, f, n, c, g, m, c');
    }
  }

  lemma SameEndTwice(a: Abi, c: Config, c1: Config, c2: Config)
    requires SameEnd(a, c, c1) && SameEnd(a, c1, c2)
    ensures SameEnd(a, c, c2) && SameEnd(a, c1, c)
  {
  }

  lemma VisiblyTwice(a: Abi, f: Cfg, c: Config, g: Cfg, c': Config, h: Cfg, c'': Config)
    requires Visibly(a, f, c, g, c') && Visibly(a, g, c', h, c'')
    ensures Visibly(a, f, c, h, c'')
  {
    forall n: nat ensures Seen(a, f, n, c, h, c'') {
      assert Seen(a, f, n, c, g, c');
      var m: nat :| SameSight(a, f, n, c, g, m, c');
      assert Seen(a, g, m, c', h, c'');
      var l: nat :| SameSight(a, g, m, c', h, l, c'');
      SameEndTwice(a, Run(f, n, c), Run(g, m, c'), Run(h, l, c''));
      assert SameSight(a, f, n, c, h, l, c'');
    }
  }

  /** The exact correspondence of dead write elimination implies the visible one. */
  lemma SameBehaviourLooksSame(a: Abi, f: Cfg, c: Config, g: Cfg, c': Config)
    requires SameBehaviour(a, f, c, g, c')
    ensures LooksSame(a, f, c, g, c')
  {
    forall n: nat ensures Seen(a, f, n, c, g, c') {
      assert HasMatch(a, f, n, c, g, c');
      var m: nat :| Matches(a, f, n, c, g, m, c');
      assert SameSight(a, f, n, c, g, m, c');
    }
    forall m: nat ensures Seen(a, g, m, c', f, c) {
      assert IsMatch(a, f, c, g, m, c');
      var n: nat :| Matches(a, f, n, c, g, m, c');
      SameEndTwice(a, Run(f, n, c), Run(g, m, c'), Run(g, m, c'));
      assert SameSight(a, g, m, c', f, n, c);
    }
  }

  lemma EquivalentLooksSame(a: Abi, f: Cfg, c: Config, g: Cfg, c': Config)
    requires Equivalent(Graph(f), c, Graph(g), c')
    ensures LooksSame(a, f, c, g, c')
  {
    hide Refines, Visibly;
    RefinesVisibly(a, f, c, g, c');
    RefinesVisibly(a, g, c', f, c);
  }

  lemma LooksSameTwice(a: Abi, f: Cfg, c: Config, g: Cfg, c': Config, h: Cfg, c'': Config)
    requires LooksSame(a, f, c, g, c') && LooksSame(a, g, c', h, c'')
    ensures LooksSame(a, f, c, h, c'')
  {
    hide Visibly;
    VisiblyTwice(a, f, c, g, c', h, c'');
    VisiblyTwice(a, h, c'', g, c', f, c);
  }
}

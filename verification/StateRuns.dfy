/** Any sequence of stores, moves and joins over the registers and the stack. */
module StateRuns {
  import opened ProgramState
  import M = MergeElements

  /** The byte arrays of the states: registers and stack, by number. */
  type Store = map<nat, seq<Elem>>
  type Memory = map<nat, seq<CByte>>

  /** A store of a value whose concrete bytes are bs, a move, or a join with another array: the machine has come either
      way. */
  datatype Op =
    | Put(id: nat, o: nat, n: nat, v: DynValue, bs: seq<CByte>)
    | Move(id1: nat, o1: nat, id2: nat, o2: nat, n: nat)
    | Join(id1: nat, id2: nat, other: bool)

  predicate InBounds(st: Store, op: Op) {
    match op
    case Put(id, o, n, v, bs) => id in st && 0 < n && o + n <= |st[id]| && |bs| == n
    case Move(id1, o1, id2, o2, n) => id1 in st && id2 in st && 0 < n && o1 + n <= |st[id1]| && o2 + n <= |st[id2]|
    case Join(id1, id2, _) => id1 in st && id2 in st && |st[id1]| == |st[id2]|
  }

  /** One operation of the analysis. None is a thrown error. */
  function Apply(st: Store, op: Op): Option<Store> {
    if !InBounds(st, op) then None
    else match op
      case Put(id, o, n, v, _) =>
        var r := SetElements(st[id], o, n, v, false);
        if r.Some? then Some(st[id := r.value]) else None
      case Move(id1, o1, id2, o2, n) =>
        var r := MoveElements(st[id1], st[id2], id1 == id2, o1, o2, n);
        if r.Some? then Some(st[id2 := r.value]) else None
      case Join(id1, id2, _) => Some(st[id1 := M.Merge(st[id1], st[id2]).0])
  }

  /** The same operation on the concrete bytes. */
  function Execute(mem: Memory, op: Op): Memory {
    match op
    case Put(id, o, n, _, bs) => if id in mem && o + |bs| <= |mem[id]| then mem[id := Overwrite(mem[id], o, bs)] else mem
    case Move(id1, o1, id2, o2, n) =>
      if id1 in mem && id2 in mem && o1 + n <= |mem[id1]| && o2 + n <= |mem[id2]|
      then mem[id2 := Overwrite(mem[id2], o2, mem[id1][o1..o1 + n])] else mem
    case Join(id1, id2, other) => if other && id1 in mem && id2 in mem then mem[id1 := mem[id2]] else mem
  }

  /** None if one of the operations throws. */
  function AfterOps(st: Store, ops: seq<Op>): Option<Store> {
    if ops == [] then Some(st)
    else match Apply(st, ops[0])
      case None => None
      case Some(st') => AfterOps(st', ops[1..])
  }

  function AfterExecution(mem: Memory, ops: seq<Op>): Memory {
    if ops == [] then mem else AfterExecution(Execute(mem, ops[0]), ops[1..])
  }

  // ---- heads and tails ----

  ghost predicate AllHeads(st: Store) { forall id | id in st :: HeadsOk(st[id]) }

  lemma ApplyKeepsHeads(st: Store, op: Op)
    requires AllHeads(st) && Apply(st, op).Some?
    ensures AllHeads(Apply(st, op).value)
  {
    hide SetElements, MoveElements, HeadsOk, M.Merge, TailsOk;
    match op
    case Put(id, o, n, v, bs) =>
      SetFits(st[id], o, n, v);
      SetExact(st[id], o, n, v);
    case Move(id1, o1, id2, o2, n) => MoveExact(st[id1], st[id2], id1 == id2, o1, o2, n);
    case Join(id1, id2, _) => M.MergeFacts(st[id1], st[id2]);
  }

  lemma SetFits(es: seq<Elem>, o: nat, n: nat, v: DynValue)
    requires SetElements(es, o, n, v, false).Some?
    ensures Fits(v, n)
  {
    hide Mark;
  }

  /** Every pointer head keeps its seven tails over any sequence of operations that does not throw. */
  lemma {:induction false} RunKeepsHeads(st: Store, ops: seq<Op>)
    requires AllHeads(st) && AfterOps(st, ops).Some?
    ensures AllHeads(AfterOps(st, ops).value)
  {
    if ops != [] {
      hide Apply;
      ApplyKeepsHeads(st, ops[0]);
      RunKeepsHeads(Apply(st, ops[0]).value, ops[1..]);
    }
  }

  // ---- what the states describe ----

  ghost predicate Good(st: Store, mem: Memory, env: Env) {
    st.Keys == mem.Keys && AllHeads(st) && forall id | id in st :: Describes(st[id], mem[id], env)
  }

  /** What is stored is what its value stands for, and no move within an array overtakes itself. */
  ghost predicate HonestOp(op: Op, env: Env) {
    && (op.Put? ==> ValueDescribes(op.v, op.bs, env))
    && (op.Move? && op.id1 == op.id2 ==> !Overtakes(op.o1, op.o2, op.n))
  }

  ghost predicate Honest(ops: seq<Op>, env: Env) {
    forall k | 0 <= k < |ops| :: HonestOp(ops[k], env)
  }

  /** The operation takes no taint from a byte that carries it. */
  predicate Spares(st: Store, mem: Memory, op: Op) {
    InBounds(st, op) ==>
      match op
      case Put(id, o, _, _, _) => id in mem && |mem[id]| == |st[id]| ==> Spared(st[id], o, mem[id])
      case Move(id1, o1, id2, o2, _) =>
        Marks(id1 == id2, o1, o2) && id2 in mem && |mem[id2]| == |st[id2]| ==> Spared(st[id2], o2, mem[id2])
      case Join(_, _, _) => true
  }

  predicate Sparing(st: Store, mem: Memory, ops: seq<Op>) {
    ops != [] && Apply(st, ops[0]).Some? ==>
      Spares(st, mem, ops[0]) && Sparing(Apply(st, ops[0]).value, Execute(mem, ops[0]), ops[1..])
  }

  lemma ApplySound(st: Store, mem: Memory, op: Op, env: Env)
    requires Good(st, mem, env) && Apply(st, op).Some? && Spares(st, mem, op)
    requires HonestOp(op, env)
    ensures Good(Apply(st, op).value, Execute(mem, op), env)
  {
    ApplyKeepsHeads(st, op);
    var after := Apply(st, op).value;
    hide AllHeads, SetElements, MoveElements, HeadsOk, Overwrite, M.Merge, Spared, Describes, ValueDescribes, Marks;
    match op
    case Put(id, o, n, v, bs) =>
      GoodAt(st, mem, env, id);
      SetSound(st[id], o, n, v, mem[id], bs, env);
      GoodUpdate(st, mem, env, id, after[id], Overwrite(mem[id], o, bs));
    case Move(id1, o1, id2, o2, n) =>
      GoodAt(st, mem, env, id1);
      GoodAt(st, mem, env, id2);
      MoveSound(st[id1], st[id2], id1 == id2, o1, o2, n, mem[id1], mem[id2], env);
      GoodUpdate(st, mem, env, id2, after[id2], Overwrite(mem[id2], o2, mem[id1][o1..o1 + n]));
    case Join(id1, id2, other) =>
      GoodAt(st, mem, env, id1);
      GoodAt(st, mem, env, id2);
      var cs := if other then mem[id2] else mem[id1];
      M.MergeJoins(st[id1], st[id2], cs, env);
      GoodUpdate(st, mem, env, id1, after[id1], cs);
      assert !other ==> mem[id1 := mem[id1]] == mem;
  }

  lemma GoodAt(st: Store, mem: Memory, env: Env, id: nat)
    requires Good(st, mem, env) && id in st
    ensures id in mem && |mem[id]| == |st[id]| && HeadsOk(st[id]) && Describes(st[id], mem[id], env)
  {
    hide HeadsOk;
    DescribesLength(st[id], mem[id], env);
  }

  lemma GoodUpdate(st: Store, mem: Memory, env: Env, id: nat, es: seq<Elem>, cs: seq<CByte>)
    requires Good(st, mem, env) && AllHeads(st[id := es]) && id in st && Describes(es, cs, env)
    ensures Good(st[id := es], mem[id := cs], env)
  {
    hide HeadsOk, Describes;
  }

  /** After any sequence of operations that does not throw and takes no taint from a byte that carries it, the arrays still
      describe the bytes of the machine. */
  lemma {:induction false} RunSound(st: Store, mem: Memory, ops: seq<Op>, env: Env)
    requires Good(st, mem, env) && AfterOps(st, ops).Some? && Honest(ops, env) && Sparing(st, mem, ops)
    ensures Good(AfterOps(st, ops).value, AfterExecution(mem, ops), env)
  {
    if ops != [] {
      hide Good, Apply, Execute, HonestOp, Spares;
      ApplySound(st, mem, ops[0], env);
      assert Honest(ops[1..], env) by { HonestRest(ops, env); }
      RunSound(Apply(st, ops[0]).value, Execute(mem, ops[0]), ops[1..], env);
    }
  }

  lemma HonestRest(ops: seq<Op>, env: Env)
    requires ops != [] && Honest(ops, env)
    ensures Honest(ops[1..], env)
  {
    hide HonestOp;
    forall k | 0 <= k < |ops| - 1 ensures HonestOp(ops[1..][k], env) {
      assert ops[1..][k] == ops[k + 1];
    }
  }

  /** After such a run a read is sound for everything the array may stand for if and only if no tails are hidden in its
      range; and a read that touches a byte derived from the stack pointer says so in any case. */
  lemma RunReads(st: Store, mem: Memory, ops: seq<Op>, env: Env, id: nat, o: nat, n: nat)
    requires Good(st, mem, env) && AfterOps(st, ops).Some? && Honest(ops, env) && Sparing(st, mem, ops)
    requires id in AfterOps(st, ops).value && 0 < n && o + n <= |AfterOps(st, ops).value[id]|
    requires GetElements(AfterOps(st, ops).value[id], o, n).Some?
    ensures var es := AfterOps(st, ops).value[id];
            && id in AfterExecution(mem, ops) && |AfterExecution(mem, ops)[id]| == |es|
            && ((forall cs | Describes(es, cs, env) :: ReadHolds(es, o, n, cs, env)) <==> !HiddenTails(es, o, n))
            && (!HiddenTails(es, o, n) ==> ReadHolds(es, o, n, AfterExecution(mem, ops)[id], env))
            && (!Untainted(AfterExecution(mem, ops)[id][o..o + n]) ==> StackValue(GetElements(es, o, n).value))
  {
    RunSound(st, mem, ops, env);
    hide AfterOps, AfterExecution, GetElements;
    var es, cs := AfterOps(st, ops).value[id], AfterExecution(mem, ops)[id];
    ReadsOf(es, cs, env, o, n);
  }

  /** The value read describes the bytes of the range. */
  ghost predicate ReadHolds(es: seq<Elem>, o: nat, n: nat, cs: seq<CByte>, env: Env)
    requires 0 < n && o + n <= |es| && GetElements(es, o, n).Some?
  {
    |cs| == |es| && ValueDescribes(GetElements(es, o, n).value, cs[o..o + n], env)
  }

  predicate StackValue(v: DynValue) { v == Plain(Tainted) || (v.Ptr? && v.ty == StackPtr) }

  lemma ReadsOf(es: seq<Elem>, cs: seq<CByte>, env: Env, o: nat, n: nat)
    requires HeadsOk(es) && Describes(es, cs, env) && 0 < n && o + n <= |es| && GetElements(es, o, n).Some?
    ensures |cs| == |es|
    ensures (forall cs' | Describes(es, cs', env) :: ReadHolds(es, o, n, cs', env)) <==> !HiddenTails(es, o, n)
    ensures !HiddenTails(es, o, n) ==> ReadHolds(es, o, n, cs, env)
    ensures !Untainted(cs[o..o + n]) ==> StackValue(GetElements(es, o, n).value)
  {
    GetSoundIff(es, o, n, cs, env);
    GetTaint(es, o, n);
    hide GetElements, HiddenTails, HeadsOk;
    forall cs' | Describes(es, cs', env) ensures |cs'| == |es| { DescribesLength(es, cs', env); }
    if !Untainted(cs[o..o + n]) {
      var k :| 0 <= k < n && cs[o..o + n][k].taint;
      assert ByteDescribed(es, cs, env, o + k);
      assert StackDerived(TypeAt(es, o + k));
    }
  }

  // ---- values alone ----

  /** The bytes without their taint. */
  function Clean(cs: seq<CByte>): (r: seq<CByte>)
    ensures |r| == |cs|
  {
    seq(|cs|, k requires 0 <= k < |cs| => CByte(cs[k].val, false))
  }

  function CleanMemory(mem: Memory): Memory { map id | id in mem :: Clean(mem[id]) }

  function CleanOp(op: Op): Op { if op.Put? then op.(bs := Clean(op.bs)) else op }

  function CleanOps(ops: seq<Op>): (r: seq<Op>)
    ensures |r| == |ops|
  {
    seq(|ops|, k requires 0 <= k < |ops| => CleanOp(ops[k]))
  }

  lemma CleanApply(st: Store, op: Op)
    ensures Apply(st, CleanOp(op)) == Apply(st, op)
  {
  }

  lemma {:induction false} CleanAfterOps(st: Store, ops: seq<Op>)
    ensures AfterOps(st, CleanOps(ops)) == AfterOps(st, ops)
  {
    if ops != [] {
      hide Apply;
      CleanApply(st, ops[0]);
      assert CleanOps(ops)[1..] == CleanOps(ops[1..]);
      if Apply(st, ops[0]).Some? { CleanAfterOps(Apply(st, ops[0]).value, ops[1..]); }
    }
  }

  lemma CleanOverwrite(cs: seq<CByte>, o: nat, bs: seq<CByte>)
    requires o + |bs| <= |cs|
    ensures Overwrite(Clean(cs), o, Clean(bs)) == Clean(Overwrite(cs, o, bs))
  {
  }

  lemma CleanRange(cs: seq<CByte>, o: nat, n: nat)
    requires o + n <= |cs|
    ensures Clean(cs)[o..o + n] == Clean(cs[o..o + n])
  {
  }

  lemma CleanUpdate(mem: Memory, id: nat, cs: seq<CByte>)
    ensures CleanMemory(mem[id := cs]) == CleanMemory(mem)[id := Clean(cs)]
  {
    hide Clean;
  }

  lemma CleanExecute(mem: Memory, op: Op)
    ensures Execute(CleanMemory(mem), CleanOp(op)) == CleanMemory(Execute(mem, op))
  {
    hide Overwrite, Clean;
    match op
    case Put(id, o, n, v, bs) =>
      if id in mem && o + |bs| <= |mem[id]| {
        CleanOverwrite(mem[id], o, bs);
        CleanUpdate(mem, id, Overwrite(mem[id], o, bs));
      }
    case Move(id1, o1, id2, o2, n) =>
      if id1 in mem && id2 in mem && o1 + n <= |mem[id1]| && o2 + n <= |mem[id2]| {
        CleanRange(mem[id1], o1, n);
        CleanOverwrite(mem[id2], o2, mem[id1][o1..o1 + n]);
        CleanUpdate(mem, id2, Overwrite(mem[id2], o2, mem[id1][o1..o1 + n]));
      }
    case Join(id1, id2, other) =>
      if other && id1 in mem && id2 in mem { CleanUpdate(mem, id1, mem[id2]); }
  }

  lemma {:induction false} CleanAfterExecution(mem: Memory, ops: seq<Op>)
    ensures AfterExecution(CleanMemory(mem), CleanOps(ops)) == CleanMemory(AfterExecution(mem, ops))
  {
    if ops != [] {
      hide Execute;
      CleanExecute(mem, ops[0]);
      assert CleanOps(ops)[1..] == CleanOps(ops[1..]);
      CleanAfterExecution(Execute(mem, ops[0]), ops[1..]);
    }
  }

  /** Clean bytes have no taint to lose. */
  lemma {:induction false} CleanSparing(st: Store, mem: Memory, ops: seq<Op>)
    ensures Sparing(st, CleanMemory(mem), CleanOps(ops))
  {
    if ops != [] && Apply(st, CleanOps(ops)[0]).Some? {
      CleanSpares(st, mem, CleanOps(ops)[0]);
      hide Apply, Execute, Spares;
      CleanExecute(mem, ops[0]);
      assert CleanOps(ops)[1..] == CleanOps(ops[1..]);
      CleanSparing(Apply(st, CleanOps(ops)[0]).value, Execute(mem, ops[0]), ops[1..]);
    }
  }

  lemma CleanSpares(st: Store, mem: Memory, op: Op)
    ensures Spares(st, CleanMemory(mem), op)
  {
    hide Marks;
  }

  lemma CleanDescribes(es: seq<Elem>, cs: seq<CByte>, env: Env)
    requires Describes(es, cs, env)
    ensures Describes(es, Clean(cs), env)
  {
    forall i | 0 <= i < |es| ensures ByteDescribed(es, Clean(cs), env, i) {
      assert ByteDescribed(es, cs, env, i);
      if i + 8 <= |es| { assert Vals(Clean(cs)[i..i + 8]) == Vals(cs[i..i + 8]); }
    }
  }

  lemma CleanValue(v: DynValue, bs: seq<CByte>, env: Env)
    requires ValueDescribes(v, bs, env)
    ensures ValueDescribes(v, Clean(bs), env)
  {
    assert Vals(Clean(bs)) == Vals(bs);
  }

  /** Values hold after any sequence of operations that does not throw, whatever taint was lost: what is read, with no
      tails hidden in the range, is the value of the bytes of the machine. */
  lemma RunValues(st: Store, mem: Memory, ops: seq<Op>, env: Env, id: nat, o: nat, n: nat)
    requires Good(st, mem, env) && AfterOps(st, ops).Some? && Honest(ops, env)
    requires id in AfterOps(st, ops).value && 0 < n && o + n <= |AfterOps(st, ops).value[id]|
    requires GetElements(AfterOps(st, ops).value[id], o, n).Some? && !HiddenTails(AfterOps(st, ops).value[id], o, n)
    ensures id in AfterExecution(mem, ops) && ReadHolds(AfterOps(st, ops).value[id], o, n, Clean(AfterExecution(mem, ops)[id]), env)
  {
    hide AfterOps, AfterExecution, GetElements, HiddenTails, ReadHolds, Sparing;
    CleanGood(st, mem, env);
    CleanHonest(ops, env);
    CleanSparing(st, mem, ops);
    CleanAfterOps(st, ops);
    CleanAfterExecution(mem, ops);
    RunReads(st, CleanMemory(mem), CleanOps(ops), env, id, o, n);
  }

  lemma CleanGood(st: Store, mem: Memory, env: Env)
    requires Good(st, mem, env)
    ensures Good(st, CleanMemory(mem), env)
  {
    hide AllHeads, Describes;
    forall id | id in st ensures Describes(st[id], CleanMemory(mem)[id], env) { CleanDescribes(st[id], mem[id], env); }
  }

  lemma CleanHonest(ops: seq<Op>, env: Env)
    requires Honest(ops, env)
    ensures Honest(CleanOps(ops), env)
  {
    hide ValueDescribes;
    forall k | 0 <= k < |ops| ensures HonestOp(CleanOps(ops)[k], env) {
      assert HonestOp(ops[k], env);
      if ops[k].Put? { CleanValue(ops[k].v, ops[k].bs, env); }
    }
  }
}

/** The program state as the analysis has it, arrays updated in place, and its merge. */
module ProgramStateMerge {
  import opened StateJoin
  import B = ProgramState
  import M = MergeElements
  import K = StackState
  import Q = StateLeast
  import A = ElementArrays

  class ProgramState {
    const regs: seq<array<B.Elem>>
    const stack: K.Stack

    constructor (regs: seq<array<B.Elem>>, stack: K.Stack)
      ensures this.regs == regs && this.stack == stack
    {
      this.regs, this.stack := regs, stack;
    }

    ghost predicate Valid()
      reads this, stack, stack.elems, regs
    {
      && stack.Valid() && (stack.dead ==> stack.elems.Length == 0 && stack.base == 0)
      && (forall i, j | 0 <= i < j < |regs| :: regs[i] != regs[j])
      && stack.elems !in regs && StateOk(Value())
    }

    ghost function FrameValue(): Frame
      reads stack, stack.elems
    {
      if stack.dead then DeadFrame else Frame(stack.elems[..], if stack.base < 0 then 0 else stack.base)
    }

    ghost function RegValues(): (v: seq<seq<B.Elem>>)
      reads regs
      ensures |v| == |regs| && forall i | 0 <= i < |regs| :: v[i] == regs[i][..]
    {
      seq(|regs|, i requires 0 <= i < |regs| reads regs => regs[i][..])
    }

    /** The state this object stands for. */
    ghost function Value(): Bytes
      reads this, stack, stack.elems, regs
    {
      Bytes(RegValues(), FrameValue())
    }

    /** Nothing of this state is part of the other one. */
    ghost predicate Apart(rhs: ProgramState)
      reads this, stack, rhs, rhs.stack
    {
      && stack != rhs.stack && stack.elems != rhs.stack.elems
      && stack.elems !in rhs.regs && rhs.stack.elems !in regs && forall r | r in regs :: r !in rhs.regs
    }

    method MergeReg(rhs: ProgramState, i: nat) returns (diff: bool)
      requires i < |regs| == |rhs.regs| && regs[i].Length == rhs.regs[i].Length
      requires B.HeadsOk(regs[i][..]) && B.HeadsOk(rhs.regs[i][..])
      requires (forall j, k | 0 <= j < k < |regs| :: regs[j] != regs[k]) && forall r | r in regs :: r !in rhs.regs
      modifies regs[i]
      ensures RegValues() == old(RegValues())[i := M.Merge(old(regs[i][..]), old(rhs.regs[i][..])).0]
      ensures diff == M.Merge(old(regs[i][..]), old(rhs.regs[i][..])).1
      ensures rhs.RegValues() == old(rhs.RegValues())
    {
      hide M.Merge, B.HeadsOk;
      assert regs[i] in regs && rhs.regs[i] in rhs.regs;
      diff := A.MergeArrays(regs[i], rhs.regs[i]);
      assert forall j | 0 <= j < |rhs.regs| :: rhs.regs[j] != regs[i];
    }

    /** Merge the registers one by one. */
    method MergeRegs(rhs: ProgramState) returns (diff: bool)
      requires Valid() && rhs.Valid() && Apart(rhs)
      modifies regs
      ensures RegsMatch(old(RegValues()), old(rhs.RegValues()))
      ensures (RegValues(), diff) == JoinRegs(old(RegValues()), old(rhs.RegValues()))
      ensures rhs.RegValues() == old(rhs.RegValues())
    {
      ghost var l, r := RegValues(), rhs.RegValues();
      RegsMatched(Value(), rhs.Value());
      hide M.Merge, B.HeadsOk, JoinRegs;
      diff := false;
      JoinedNone(l, r);
      for i := 0 to |regs|
        invariant RegValues() == JoinedUpTo(l, r, i).0 && diff == JoinedUpTo(l, r, i).1 && rhs.RegValues() == r
      {
        JoinedNext(l, r, i);
        assert RegValues()[i] == l[i] && r[i] == rhs.regs[i][..];
        var d := MergeReg(rhs, i);
        diff := diff || d;
      }
      JoinedAll(l, r);
    }

    method MergeStacks(rhs: ProgramState) returns (diff: bool)
      requires stack != rhs.stack && stack.elems != rhs.stack.elems && stack.Valid() && rhs.stack.Valid()
      requires FrameOk(FrameValue()) && FrameOk(rhs.FrameValue())
      requires stack.dead ==> stack.elems.Length == 0 && stack.base == 0
      modifies stack, stack.elems, rhs.stack`elems, rhs.stack`base
      ensures stack.Valid() && (stack.dead ==> stack.elems.Length == 0 && stack.base == 0)
      ensures stack.elems == old(stack.elems) || fresh(stack.elems)
      ensures FrameOk(old(FrameValue())) && FrameOk(old(rhs.FrameValue()))
      ensures (FrameValue(), diff) == JoinFrames(old(FrameValue()), old(rhs.FrameValue()))
      ensures rhs.stack.dead == old(rhs.stack.dead) && forall off :: rhs.stack.Contents(off) == old(rhs.stack.Contents(off))
    {
      hide M.Merge, B.HeadsOk, K.Window, K.ByteAt;
      diff := stack.MergeStack(rhs.stack);
    }

    /** The registers, then the stacks. The other stack is grown on the way; the bytes it stands for stay the
        same. */
    method Merge(rhs: ProgramState) returns (diff: bool)
      requires Valid() && rhs.Valid() && Apart(rhs)
      modifies regs, stack, stack.elems, rhs.stack`elems, rhs.stack`base
      ensures Valid() && StateOk(old(Value())) && StateOk(old(rhs.Value()))
      ensures (Value(), diff) == Join(old(Value()), old(rhs.Value()))
      ensures Q.LeastState(Value(), old(Value()), old(rhs.Value()))
      ensures rhs.RegValues() == old(rhs.RegValues()) && rhs.stack.dead == old(rhs.stack.dead)
      ensures forall off :: rhs.stack.Contents(off) == old(rhs.stack.Contents(off))
    {
      hide M.Merge, B.HeadsOk, RegsOk, JoinRegs, JoinFrames;
      ghost var l, r := Value(), rhs.Value();
      JoinOk(l, r);
      Q.JoinIsLeast(l, r);
      hide Q.LeastState;
      diff := MergeRegs(rhs);
      ghost var regs1, rhs1 := RegValues(), rhs.RegValues();
      assert FrameValue() == l.frame && rhs.FrameValue() == r.frame;
      var d := MergeStacks(rhs);
      diff := diff || d;
      assert RegValues() == regs1 && rhs.RegValues() == rhs1;
    }
  }
}

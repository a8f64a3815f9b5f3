/** The stack of the byte domain: an array that grows at both ends, addressed relative to the stack
    pointer at function entry. It stands for a total map from signed offsets to bytes, Dead where
    nothing was ever touched. */
module StackState {
  import opened ProgramState
  import Join = MergeElements
  import Arrays = ElementArrays

  const DEAD := Elem(Dead, 0, 0)

  /** The byte at a stack offset, if index base of the array is offset 0. */
  function ByteAt(es: seq<Elem>, base: int, off: int): Elem {
    if 0 <= base + off < |es| then es[base + off] else DEAD
  }

  /** The bytes from offset -below up to, not including, offset above. */
  function Window(es: seq<Elem>, base: int, below: nat, above: nat): (w: seq<Elem>)
    ensures |w| == below + above
  {
    seq(below + above, k requires 0 <= k < below + above => ByteAt(es, base, k - below))
  }

  function MaxInt(a: int, b: int): int { if a < b then b else a }

  lemma WindowAt(es: seq<Elem>, base: nat, below: nat, above: nat, i: int)
    requires base <= below && 0 <= i < below + above
    ensures Window(es, base, below, above)[i] == if 0 <= i - (below - base) < |es| then es[i - (below - base)] else DEAD
  {
    assert Window(es, base, below, above)[i] == ByteAt(es, base, i - below);
  }

  /** Growing on either side leaves every pointer with its tails, and every tail with its head. */
  lemma WindowWellFormed(es: seq<Elem>, base: nat, below: nat, above: nat)
    requires HeadsOk(es) && base <= |es| && base <= below && |es| - base <= above
    ensures HeadsOk(Window(es, base, below, above))
    ensures WellFormed(es) ==> WellFormed(Window(es, base, below, above))
  {
    var w := Window(es, base, below, above);
    var d := below - base;
    forall i | 0 <= i < |w| && IsPtr(TypeAt(w, i)) ensures HeadAt(w, i) {
      WindowAt(es, base, below, above, i);
      Behind(es, i - d, i - d);
      forall j | i < j < i + 8 ensures TypeAt(w, j) == TailOf(TypeAt(w, i)) {
        Behind(es, i - d, j - d);
        WindowAt(es, base, below, above, j);
      }
    }
    if WellFormed(es) {
      forall i | 0 <= i < |w| && IsTail(TypeAt(w, i)) ensures TailAt(w, i) {
        WindowAt(es, base, below, above, i);
        assert TypeAt(es, i - d) == TypeAt(w, i);
        assert TailAt(es, i - d);
        var h :| Owns(es, h, i - d);
        WindowAt(es, base, below, above, d + h);
        assert Owns(w, d + h, i);
      }
    }
  }

  class Stack {
    var elems: array<Elem>
    var base: int
    var dead: bool

    ghost predicate Valid()
      reads this, elems
    {
      0 <= base <= elems.Length
    }

    /** The map this stack stands for. */
    ghost function Contents(off: int): Elem
      reads this, elems
    {
      ByteAt(elems[..], base, off)
    }

    constructor ()
      ensures Valid() && fresh(elems) && !dead && elems.Length == 0 && base == 0
    {
      elems := new Elem[0];
      base := 0;
      dead := false;
    }

    /** Bytes at and above offset 0, and below it. */
    function OldStackSize(): int reads this { elems.Length - base }
    function NewStackSize(): int reads this { base }

    /** More room at and above offset 0. */
    method GrowOld(size: nat)
      requires Valid() && !dead && OldStackSize() < size
      modifies this`elems
      ensures Valid() && fresh(elems) && OldStackSize() == size
      ensures forall off :: Contents(off) == old(Contents(off))
    {
      var data := new Elem[base + size]
        (i requires 0 <= i reads this, elems => if i < elems.Length then elems[i] else DEAD);
      elems := data;
    }

    /** More room below offset 0; offset 0 moves. */
    method GrowNew(size: nat)
      requires Valid() && !dead && base < size
      modifies this`elems, this`base
      ensures Valid() && fresh(elems) && base == size && OldStackSize() == old(OldStackSize())
      ensures forall off :: Contents(off) == old(Contents(off))
    {
      var diff := size - base;
      var data := new Elem[elems.Length + diff]
        (i requires 0 <= i < elems.Length + diff reads this, elems => if i < diff then DEAD else elems[i - diff]);
      base := base + diff;
      elems := data;
    }

    /** The array is the window its sizes say, of whatever map it stands for. */
    lemma IsWindow(es: seq<Elem>, b: int)
      requires Valid() && forall off :: Contents(off) == ByteAt(es, b, off)
      ensures elems[..] == Window(es, b, base, OldStackSize())
    {
      forall k | 0 <= k < elems.Length ensures elems[k] == ByteAt(es, b, k - base) {
        assert elems[k] == Contents(k - base);
      }
    }

    /** Make the range from baseOffset on indexable. No byte of the map changes. */
    method Grow(baseOffset: int, size: nat)
      requires Valid()
      modifies this`elems, this`base
      ensures Valid() && (elems == old(elems) || fresh(elems))
      ensures dead ==> elems == old(elems) && base == old(base)
      ensures !dead ==> base == MaxInt(old(base), -baseOffset)
      ensures !dead ==> OldStackSize() == MaxInt(old(OldStackSize()), baseOffset + size)
      ensures !dead ==> 0 <= base + baseOffset && base + baseOffset + size <= elems.Length
      ensures forall off :: Contents(off) == old(Contents(off))
      ensures elems[..] == Window(old(elems[..]), old(base), base, OldStackSize())
    {
      var neededOldStackSize := baseOffset + size;
      var neededNewStackSize := -baseOffset;
      if !dead {
        if neededOldStackSize > OldStackSize() {
          GrowOld(neededOldStackSize);
        }
        if neededNewStackSize > NewStackSize() {
          GrowNew(neededNewStackSize);
        }
      }
      IsWindow(old(elems[..]), old(base));
    }

    /** Store a value. What is written to a dead stack is lost. */
    method SetStack(baseOffset: int, n: nat, v: DynValue, cond: bool) returns (ok: bool)
      requires Valid()
      modifies this`elems, this`base, elems
      ensures ok ==> Valid()
      ensures old(dead) ==> ok && elems == old(elems) && elems[..] == old(elems[..]) && base == old(base)
      ensures ok && !old(dead) ==>
                var below, above := MaxInt(old(base), -baseOffset), MaxInt(old(OldStackSize()), baseOffset + n);
                && base == below
                && Some(elems[..]) == SetElements(Window(old(elems[..]), old(base), below, above), below + baseOffset, n, v, cond)
    {
      if dead {
        return true;
      }
      Grow(baseOffset, n);
      ok := Arrays.StoreElements(elems, base + baseOffset, n, v, cond);
    }

    /** Load a value: Tainted from a dead stack. Untouched bytes read as Dead. */
    method GetStack(baseOffset: int, n: nat) returns (r: Option<DynValue>)
      requires Valid() && 0 < n
      modifies this`elems, this`base
      ensures Valid() && (elems == old(elems) || fresh(elems))
      ensures forall off :: Contents(off) == old(Contents(off))
      ensures !dead ==> 0 <= base + baseOffset && base + baseOffset + n <= elems.Length
      ensures dead ==> r == Some(Plain(Tainted))
      ensures !dead ==> r == GetElements(Window(old(elems[..]), old(base), base, OldStackSize()), base + baseOffset, n)
    {
      if dead {
        return Some(Plain(Tainted));
      }
      Grow(baseOffset, n);
      r := Arrays.LoadElements(elems, base + baseOffset, n);
    }

    /** Join with another stack. Both are grown to the same base and size first, so equal indexes are
        equal offsets. A dead stack absorbs. */
    method MergeStack(rhs: Stack) returns (diff: bool)
      requires this != rhs && elems != rhs.elems && Valid() && rhs.Valid()
      requires !dead && !rhs.dead ==> HeadsOk(elems[..]) && HeadsOk(rhs.elems[..])
      modifies this, elems, rhs`elems, rhs`base
      ensures dead == (old(dead) || rhs.dead) && rhs.dead == old(rhs.dead)
      ensures Valid() && (elems == old(elems) || fresh(elems))
      ensures old(dead) ==> elems[..] == old(elems[..]) && base == old(base)
      ensures !old(dead) && dead ==> elems.Length == 0 && base == 0
      ensures old(dead) ==> !diff
      ensures !old(dead) && rhs.dead ==> diff
      ensures forall off :: rhs.Contents(off) == old(rhs.Contents(off))
      ensures !dead ==> base == rhs.base && elems.Length == rhs.elems.Length
      ensures !dead ==>
                var below, above := MaxInt(old(base), old(rhs.base)), MaxInt(old(OldStackSize()), old(rhs.OldStackSize()));
                && base == below
                && (elems[..], diff) == Join.Merge(Window(old(elems[..]), old(base), below, above),
                                                   Window(old(rhs.elems[..]), old(rhs.base), below, above))
    {
      diff := false;
      if dead && !rhs.dead {
      } else if !dead && rhs.dead {
        diff := true;
        SetDead();
      } else if !dead && !rhs.dead {
        var oldStackSize := MaxInt(OldStackSize(), rhs.OldStackSize());
        var newStackSize := MaxInt(NewStackSize(), rhs.NewStackSize());
        GrowBoth(oldStackSize, newStackSize);
        rhs.GrowBoth(oldStackSize, newStackSize);
        assert elems.Length == rhs.elems.Length && base == rhs.base;
        WindowWellFormed(old(elems[..]), old(base), newStackSize, oldStackSize);
        WindowWellFormed(old(rhs.elems[..]), old(rhs.base), newStackSize, oldStackSize);
        diff := Arrays.MergeArrays(elems, rhs.elems);
      }
    }

    method SetDead()
      modifies this
      ensures dead && base == 0 && elems.Length == 0 && fresh(elems)
    {
      dead := true;
      elems := new Elem[0];
      base := 0;
    }

    /** Both growth steps of the join. */
    method GrowBoth(above: nat, below: nat)
      requires Valid() && !dead && OldStackSize() <= above && base <= below
      modifies this`elems, this`base
      ensures Valid() && (elems == old(elems) || fresh(elems))
      ensures base == below && OldStackSize() == above
      ensures elems[..] == Window(old(elems[..]), old(base), below, above)
      ensures forall off :: Contents(off) == old(Contents(off))
    {
      Grow(above, 0);
      Grow(-(below as int), 0);
      IsWindow(old(elems[..]), old(base));
    }
  }
}

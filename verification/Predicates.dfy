/** Predicates of instructions: comparisons of registers and constants joined by "and" and "or", the
    three-valued prediction of their outcome, and the inversion of conditional branches. */
module Predicates {
  import opened Machine

  datatype Comparand = Const(value: Word) | Register(reg: Reg)
  datatype Comparator = Equal | NotEqual
  datatype Conjunction = And | Or
  datatype Comparison = Comparison(lhs: Comparand, comp: Comparator, rhs: Comparand)

  /** One comparison, or two joined. */
  datatype Predicate = One(first: Comparison) | Two(first: Comparison, con: Conjunction, second: Comparison)

  function Value(c: Comparand, regs: Reg -> Word): Word {
    match c
    case Const(v) => v
    case Register(r) => regs(r)
  }

  predicate Compare(comp: Comparator, x: Word, y: Word) {
    match comp
    case Equal => x == y
    case NotEqual => x != y
  }

  predicate Meets(c: Comparison, regs: Reg -> Word) {
    Compare(c.comp, Value(c.lhs, regs), Value(c.rhs, regs))
  }

  predicate Holds(p: Predicate, regs: Reg -> Word) {
    match p
    case One(c) => Meets(c, regs)
    case Two(c, And, c') => Meets(c, regs) && Meets(c', regs)
    case Two(c, Or, c') => Meets(c, regs) || Meets(c', regs)
  }

  // ---- predicting the outcome ----

  /** The registers whose value the analysis knows. */
  type Known = map<Reg, Word>

  ghost predicate Consistent(k: Known, regs: Reg -> Word) {
    forall r | r in k :: regs(r) == k[r]
  }

  function KnownValue(c: Comparand, k: Known): Option<Word> {
    match c
    case Const(v) => Some(v)
    case Register(r) => if r in k then Some(k[r]) else None
  }

  function Predict(c: Comparison, k: Known): TriState {
    var x, y := KnownValue(c.lhs, k), KnownValue(c.rhs, k);
    if x.Some? && y.Some? then (if Compare(c.comp, x.value, y.value) then True else False) else Unknown
  }

  /** The operators the results are combined with. An unknown right side leaves a true left side. */
  function TriAnd(l: TriState, r: TriState): TriState {
    if l == True && r == True then True
    else if l == False || r == False then False
    else l
  }

  function TriOr(l: TriState, r: TriState): TriState {
    if l == True || r == True then True
    else if l == Unknown || r == Unknown then Unknown
    else l
  }

  function WillExecute(p: Predicate, k: Known): TriState {
    match p
    case One(c) => Predict(c, k)
    case Two(c, And, c') => TriAnd(Predict(c, k), Predict(c', k))
    case Two(c, Or, c') => TriOr(Predict(c, k), Predict(c', k))
  }

  ghost predicate ComesTrue(t: TriState, p: Predicate, regs: Reg -> Word) {
    && (t == True ==> Holds(p, regs))
    && (t == False ==> !Holds(p, regs))
  }

  ghost predicate PredictionSound(p: Predicate, k: Known) {
    forall regs: Reg -> Word | Consistent(k, regs) :: ComesTrue(WillExecute(p, k), p, regs)
  }

  /** "And" with a true left side and an unknown right side. */
  predicate Overconfident(p: Predicate, k: Known) {
    p.Two? && p.con == And && Predict(p.first, k) == True && Predict(p.second, k) == Unknown
  }

  lemma PredictRight(c: Comparison, k: Known, regs: Reg -> Word)
    requires Consistent(k, regs)
    ensures Predict(c, k) == True ==> Meets(c, regs)
    ensures Predict(c, k) == False ==> !Meets(c, regs)
  {
  }

  /** What the analysis does not know, a register file can make come out either way. */
  lemma UnknownOpen(c: Comparison, k: Known, want: bool) returns (regs: Reg -> Word)
    requires Predict(c, k) == Unknown && c.lhs != c.rhs
    ensures Consistent(k, regs) && Meets(c, regs) == want
  {
    var equal := (c.comp == Equal) == want;
    if KnownValue(c.lhs, k).None? {
      var y := KnownValue(c.rhs, k);
      var v := if y.Some? then y.value else 0;
      var l := c.lhs.reg;
      regs := r => if r in k then k[r] else if r == l then (if equal then v else v + 1) else v;
    } else {
      var v, l := KnownValue(c.lhs, k).value, c.rhs.reg;
      regs := r => if r in k then k[r] else if r == l then (if equal then v else v + 1) else v;
    }
  }

  /** A prediction is right for every state it may be about unless it is overconfident. (A second
      comparison of a register with itself aside: no predicate has one.) */
  lemma PredictionSoundIff(p: Predicate, k: Known)
    requires p.Two? ==> p.second.lhs != p.second.rhs
    ensures PredictionSound(p, k) <==> !Overconfident(p, k)
  {
    if Overconfident(p, k) {
      var regs := UnknownOpen(p.second, k, false);
      assert !ComesTrue(WillExecute(p, k), p, regs);
    } else {
      forall regs: Reg -> Word | Consistent(k, regs) ensures ComesTrue(WillExecute(p, k), p, regs) {
        PredictRight(p.first, k, regs);
        if p.Two? {
          PredictRight(p.second, k, regs);
        }
      }
    }
  }

  // ---- and decided ----

  function RegsOf(c: Comparison): set<Reg> {
    (match c.lhs case Const(_) => {} case Register(r) => {r}) + (match c.rhs case Const(_) => {} case Register(r) => {r})
  }

  /** Comparisons of different things, of registers of their own. */
  predicate Plain(p: Predicate) {
    p.first.lhs != p.first.rhs && (p.Two? ==> p.second.lhs != p.second.rhs && RegsOf(p.first) !! RegsOf(p.second))
  }

  /** Some registers make the predicate hold, or not hold. */
  ghost predicate Possible(p: Predicate, k: Known, want: bool) {
    exists regs: Reg -> Word :: Consistent(k, regs) && Holds(p, regs) == want
  }

  lemma MeetsLocally(c: Comparison, regs: Reg -> Word, regs': Reg -> Word)
    requires forall r | r in RegsOf(c) :: regs(r) == regs'(r)
    ensures Meets(c, regs) == Meets(c, regs')
  {
    assert c.lhs.Register? ==> c.lhs.reg in RegsOf(c);
    assert c.rhs.Register? ==> c.rhs.reg in RegsOf(c);
  }

  /** Registers with which a comparison comes out as wanted: only one that is known has no choice. */
  lemma Meeting(c: Comparison, k: Known, want: bool) returns (regs: Reg -> Word)
    requires c.lhs != c.rhs && (want ==> Predict(c, k) != False) && (!want ==> Predict(c, k) != True)
    ensures Consistent(k, regs) && Meets(c, regs) == want
  {
    if Predict(c, k) == Unknown {
      regs := UnknownOpen(c, k, want);
    } else {
      regs := r => if r in k then k[r] else 0;
      PredictRight(c, k, regs);
    }
  }

  lemma BothMeeting(p: Predicate, k: Known, a: bool, b: bool) returns (regs: Reg -> Word)
    requires p.Two? && Plain(p) && (a ==> Predict(p.first, k) != False) && (!a ==> Predict(p.first, k) != True)
    requires (b ==> Predict(p.second, k) != False) && (!b ==> Predict(p.second, k) != True)
    ensures Consistent(k, regs) && Meets(p.first, regs) == a && Meets(p.second, regs) == b
  {
    var x := Meeting(p.first, k, a);
    var y := Meeting(p.second, k, b);
    var firsts := RegsOf(p.first);
    regs := (r: Reg) => if r in firsts then x(r) else y(r);
    MeetsLocally(p.first, regs, x);
    MeetsLocally(p.second, regs, y);
  }

  /** A prediction that is not made is one that cannot be: registers can make it come out either way. */
  lemma PredictionDecides(p: Predicate, k: Known)
    requires Plain(p) && WillExecute(p, k) == Unknown
    ensures Possible(p, k, true) && Possible(p, k, false)
  {
    if p.One? {
      var x := Meeting(p.first, k, true);
      var y := Meeting(p.first, k, false);
      assert Holds(p, x) && !Holds(p, y);
    } else {
      var f, g := Predict(p.first, k), Predict(p.second, k);
      var x, y;
      if p.con == And {
        x := BothMeeting(p, k, true, true);
        y := BothMeeting(p, k, f == True, g == True);
      } else {
        x := BothMeeting(p, k, f != False, g != False);
        y := BothMeeting(p, k, false, false);
      }
      assert Holds(p, x) && !Holds(p, y);
    }
  }

  // ---- condition codes ----

  const CF: Reg := 0
  const ZF: Reg := 1
  const SF: Reg := 2
  const PF: Reg := 3
  const OF: Reg := 4

  datatype Condition = B | Z | S | P | O | NB | NZ | NS | NP | NO | NL | L | BE | LE | NBE | NLE

  function Bit(flag: Reg, v: Word): Comparison { Comparison(Register(flag), Equal, Const(v)) }

  function PredicateOf(c: Condition): Predicate {
    match c
    case B => One(Bit(CF, 1))
    case Z => One(Bit(ZF, 1))
    case S => One(Bit(SF, 1))
    case P => One(Bit(PF, 1))
    case O => One(Bit(OF, 1))
    case NB => One(Bit(CF, 0))
    case NZ => One(Bit(ZF, 0))
    case NS => One(Bit(SF, 0))
    case NP => One(Bit(PF, 0))
    case NO => One(Bit(OF, 0))
    case NL => One(Comparison(Register(SF), Equal, Register(OF)))
    case L => One(Comparison(Register(SF), NotEqual, Register(OF)))
    case BE => Two(Bit(CF, 1), Or, Bit(ZF, 1))
    case LE => Two(Bit(ZF, 1), Or, Comparison(Register(SF), NotEqual, Register(OF)))
    case NBE => Two(Bit(CF, 0), And, Bit(ZF, 0))
    case NLE => Two(Bit(ZF, 0), And, Comparison(Register(SF), Equal, Register(OF)))
  }

  /** The opcode the condition of a branch is inverted to. */
  function Invert(c: Condition): Condition {
    match c
    case NBE => BE
    case NB => B
    case B => NB
    case BE => NBE
    case Z => NZ
    case NLE => LE
    case NL => L
    case L => NL
    case LE => NLE
    case NZ => Z
    case NO => O
    case NP => P
    case NS => S
    case O => NO
    case P => NP
    case S => NS
  }

  ghost predicate FlagsAreBits(regs: Reg -> Word) {
    forall r | r in {CF, ZF, SF, PF, OF} :: regs(r) == 0 || regs(r) == 1
  }

  /** The inverted condition holds exactly when the condition does not. */
  lemma InvertNegates(c: Condition, regs: Reg -> Word)
    requires FlagsAreBits(regs)
    ensures Holds(PredicateOf(Invert(c)), regs) <==> !Holds(PredicateOf(c), regs)
    ensures Invert(Invert(c)) == c
  {
    assert forall r :: r in {CF, ZF, SF, PF, OF} ==> regs(r) == 0 || regs(r) == 1;
    assert CF in {CF, ZF, SF, PF, OF} && ZF in {CF, ZF, SF, PF, OF} && SF in {CF, ZF, SF, PF, OF};
    assert PF in {CF, ZF, SF, PF, OF} && OF in {CF, ZF, SF, PF, OF};
  }

  // ---- conditions of instructions ----

  /** Every flag register is one bit wide. */
  function FlagBits(regs: Reg -> Word): Reg -> Word {
    (r: Reg) => if r <= OF then (if regs(r) == 0 then 0 else 1) else regs(r)
  }

  /** The condition of the opcode, as it is met in a state. */
  predicate ConditionHolds(c: Condition, s: State) {
    Holds(PredicateOf(c), FlagBits(s.regs))
  }

  /** The instruction branches under this condition. */
  ghost predicate HasCondition(i: Instr, c: Condition) {
    i.kind.Branch? && i.hasPredicate && forall s: State :: i.holds(s) <==> ConditionHolds(c, s)
  }

  lemma ConditionInverted(c: Condition, s: State)
    ensures ConditionHolds(Invert(c), s) <==> !ConditionHolds(c, s)
  {
    InvertNegates(c, FlagBits(s.regs));
  }

  /** The outcome of every conditional branch is predicted right, except for "above" with the carry
      flag known to be clear and the zero flag unknown, and for "greater" with the zero flag known to
      be clear and one of the others unknown. */
  lemma BranchPredictionSoundIff(c: Condition, k: Known)
    ensures PredictionSound(PredicateOf(c), k) <==>
              !(c == NBE && CF in k && k[CF] == 0 && ZF !in k)
              && !(c == NLE && ZF in k && k[ZF] == 0 && (SF !in k || OF !in k))
  {
    PredictionSoundIff(PredicateOf(c), k);
  }

  /** And where no outcome is predicted either is possible. */
  lemma BranchPredictionDecides(c: Condition, k: Known)
    requires WillExecute(PredicateOf(c), k) == Unknown
    ensures Possible(PredicateOf(c), k, true) && Possible(PredicateOf(c), k, false)
  {
    PredictionDecides(PredicateOf(c), k);
  }

  /** The prediction the way the instruction computes it: comparison by comparison. */
  method WillExecuteLoop(p: Predicate, k: Known) returns (result: TriState)
    ensures result == WillExecute(p, k)
  {
    var comparisons := if p.One? then [p.first] else [p.first, p.second];
    var cons := if p.One? then [None] else [Some(p.con), None];
    var lastCon: Option<Conjunction> := None;
    var i := 0;
    result := Unknown;
    while true
      invariant 0 <= i < |comparisons|
      invariant i == 0 ==> lastCon == None
      invariant i > 0 ==> p.Two? && lastCon == Some(p.con) && result == Predict(p.first, k)
      decreases |comparisons| - i
    {
      var tmp := Predict(comparisons[i], k);
      match lastCon {
        case None => result := tmp;
        case Some(And) => result := TriAnd(result, tmp);
        case Some(Or) => result := TriOr(result, tmp);
      }
      lastCon := cons[i];
      if lastCon == None {
        return;
      }
      i := i + 1;
    }
  }
}

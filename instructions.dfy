/** The loop-free instruction language and the weakest-precondition calculus
    over it, with a reference execution semantics that the calculus is proved
    exact against. */
module Instructions {
  import opened Terms
  import opened Substitution
  import opened Results

  /** An instruction tree. `Asgn` assigns to the constant that stands for the
      variable, so it carries the variable's sort. */
  datatype Instr =
    | Skip
    | Seq(p1: Instr, p2: Instr)
    | Cond(cond: Term, ptrue: Instr, pfalse: Instr)
    | Asgn(x: Variable, e: Term)

  /** Building a conditional: a condition that is not boolean is rejected. */
  function MakeCond(c: Term, ptrue: Instr, pfalse: Instr): (r: Result<Instr>)
    ensures r.Ok? <==> TypeOf(c) == Bool
    ensures r.Ok? ==> r.value.Cond? && r.value.cond == c && r.value.ptrue == ptrue && r.value.pfalse == pfalse
    ensures r.Err? ==> r.error == NonBooleanCondition(c)
  {
    if TypeOf(c) != Bool then Err(NonBooleanCondition(c)) else Ok(Cond(c, ptrue, pfalse))
  }

  /** What the builders guarantee of every instruction they produce: each
      condition is boolean, each assigned term has the variable's sort, and
      every embedded term is well sorted. */
  predicate WellFormed(i: Instr) {
    match i
    case Skip => true
    case Seq(p1, p2) => WellFormed(p1) && WellFormed(p2)
    case Cond(c, pt, pf) => TypeOf(c) == Bool && WellSorted(c) && WellFormed(pt) && WellFormed(pf)
    case Asgn(x, e) => TypeOf(e) == x.ty && WellSorted(e)
  }

  /** The conditional's precondition: `(c && a) || (!c && b)`. */
  function CondPre(c: Term, a: Term, b: Term): (r: Term)
    ensures TypeOf(r) == Bool
    ensures (TypeOf(c) == Bool && WellSorted(c) && TypeOf(a) == Bool && WellSorted(a) &&
             TypeOf(b) == Bool && WellSorted(b)) ==> WellSorted(r)
  {
    WellSortedPair(c, a);
    WellSortedPair(Not(c), b);
    WellSortedPair(And([c, a]), And([Not(c), b]));
    Or([And([c, a]), And([Not(c), b])])
  }

  /** `CondPre(c, a, b)` is true exactly where `a` is true if `c` holds and
      where `b` is true if it does not. */
  lemma CondPreEval(c: Term, a: Term, b: Term, s: State)
    ensures Eval(CondPre(c, a, b), s) ==
            BoolV(if AsBool(Eval(c, s)) then AsBool(Eval(a, s)) else AsBool(Eval(b, s)))
  {
    EvalPair(c, a, s);
    EvalPair(Not(c), b, s);
    EvalPair(And([c, a]), And([Not(c), b]), s);
  }

  /** The weakest precondition of `i` for the postcondition `q`. */
  function Wp(i: Instr, q: Term): (r: Term)
    ensures WellFormed(i) && TypeOf(q) == Bool ==> TypeOf(r) == Bool
    ensures WellFormed(i) && TypeOf(q) == Bool && WellSorted(q) ==> WellSorted(r)
  {
    match i
    case Skip => q
    case Seq(p1, p2) => Wp(p1, Wp(p2, q))
    case Cond(c, pt, pf) => CondPre(c, Wp(pt, q), Wp(pf, q))
    case Asgn(x, e) => SubstSorts(q, x, e); Subst(q, x, e)
  }

  /** The reference semantics: the state after running `i` from `s`. */
  function Exec(i: Instr, s: State): State {
    match i
    case Skip => s
    case Seq(p1, p2) => Exec(p2, Exec(p1, s))
    case Cond(c, pt, pf) => if AsBool(Eval(c, s)) then Exec(pt, s) else Exec(pf, s)
    case Asgn(x, e) => Update(s, x, Eval(e, s))
  }

  /** Skip's precondition is the postcondition itself. */
  lemma WpSkip(q: Term)
    ensures Wp(Skip, q) == q
  {
  }

  /** Sequencing propagates the postcondition through the second instruction
      first, so regrouping a sequence gives the very same term. */
  lemma WpSeqAssoc(a: Instr, b: Instr, c: Instr, q: Term)
    ensures Wp(Seq(a, b), q) == Wp(a, Wp(b, q))
    ensures Wp(Seq(Seq(a, b), c), q) == Wp(Seq(a, Seq(b, c)), q)
  {
  }

  /** The conditional's precondition is a case split on the condition: it
      has the value of the then-branch's precondition where the condition
      holds and of the else-branch's where it does not. */
  lemma WpCond(c: Term, pt: Instr, pf: Instr, q: Term, s: State)
    requires WellFormed(pt) && WellFormed(pf) && TypeOf(q) == Bool
    ensures Eval(Wp(Cond(c, pt, pf), q), s) ==
            if AsBool(Eval(c, s)) then Eval(Wp(pt, q), s) else Eval(Wp(pf, q), s)
  {
    CondPreEval(c, Wp(pt, q), Wp(pf, q), s);
    EvalHasSort(Wp(pt, q), s);
    EvalHasSort(Wp(pf, q), s);
  }

  /** The assignment's precondition holds in `s` exactly when the
      postcondition holds once the variable is set to the value of the
      assigned term in `s`. */
  lemma WpAsgn(x: Variable, e: Term, q: Term, s: State)
    requires TypeOf(e) == x.ty
    ensures Eval(Wp(Asgn(x, e), q), s) == Eval(q, Update(s, x, Eval(e, s)))
  {
    assert Wp(Asgn(x, e), q) == Subst(q, x, e);
    SubstEval(q, x, e, s);
  }

  /** After an assignment the variable holds the assigned term's value;
      every other variable keeps its value. */
  lemma ExecAsgnLookup(x: Variable, e: Term, s: State, y: Variable)
    requires TypeOf(e) == x.ty
    ensures Lookup(Exec(Asgn(x, e), s), y) == if y == x then Eval(e, s) else Lookup(s, y)
  {
    EvalHasSort(e, s);
    UpdateSameAndOther(s, x, Eval(e, s), y);
  }

  /** The calculus is exact for every well-formed instruction: the weakest
      precondition holds in `s` if and only if the postcondition holds in
      the state that running the instruction from `s` produces. */
  lemma {:induction false} WpCorrect(i: Instr, q: Term, s: State)
    requires WellFormed(i) && TypeOf(q) == Bool
    ensures Eval(Wp(i, q), s) == Eval(q, Exec(i, s))
  {
    match i
    case Skip =>
    case Seq(p1, p2) =>
      WpCorrect(p2, q, Exec(p1, s));
      WpCorrect(p1, Wp(p2, q), s);
    case Cond(c, pt, pf) =>
      WpCond(c, pt, pf, q, s);
      if AsBool(Eval(c, s)) { WpCorrect(pt, q, s); } else { WpCorrect(pf, q, s); }
    case Asgn(x, e) => WpAsgn(x, e, q, s);
  }
}

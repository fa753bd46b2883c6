/** Structural substitution of a term for a constant: the model of the
    solver library's `substitute`, used by the assignment rule. */
module Substitution {
  import opened Terms

  /** `t` with every occurrence of the constant `x` replaced by
      `e`; every other subterm is rebuilt unchanged. The term language has no
      binders, so no capture can happen. */
  function Subst(t: Term, x: Variable, e: Term): (r: Term)
    ensures TypeOf(e) == x.ty ==> TypeOf(r) == TypeOf(t)
    decreases t
  {
    match t
    case IntLit(_) => t
    case BoolLit(_) => t
    case VarRef(v) => if v == x then e else t
    case Not(a) => Not(Subst(a, x, e))
    case UMinus(a) => UMinus(Subst(a, x, e))
    case Bin(op, l, r) => Bin(op, Subst(l, x, e), Subst(r, x, e))
    case Cmp(op, l, r) => Cmp(op, Subst(l, x, e), Subst(r, x, e))
    case And(args) => And(SubstAll(args, x, e))
    case Or(args) => Or(SubstAll(args, x, e))
  }

  /** `Subst` applied to every operand of a conjunction or disjunction. */
  function SubstAll(ts: seq<Term>, x: Variable, e: Term): (r: seq<Term>)
    ensures |r| == |ts|
    decreases ts
  {
    if ts == [] then [] else [Subst(ts[0], x, e)] + SubstAll(ts[1..], x, e)
  }

  /** A constant other than the replaced one occurs in the result exactly
      when it occurs in `t`, or when the replaced one occurs in `t` and the
      constant occurs in `e`. */
  lemma {:induction false} SubstMentionsOther(t: Term, x: Variable, e: Term, y: Variable)
    requires y != x
    ensures Mentions(Subst(t, x, e), y) ==> Mentions(t, y) || Mentions(e, y)
    ensures Mentions(Subst(t, x, e), y) ==> Mentions(t, y) || Mentions(t, x)
    ensures Mentions(t, y) ==> Mentions(Subst(t, x, e), y)
    ensures Mentions(t, x) && Mentions(e, y) ==> Mentions(Subst(t, x, e), y)
    decreases t
  {
    match t
    case IntLit(_) =>
    case BoolLit(_) =>
    case VarRef(_) =>
    case Not(a) => SubstMentionsOther(a, x, e, y);
    case UMinus(a) => SubstMentionsOther(a, x, e, y);
    case Bin(_, l, r) =>
      SubstMentionsOther(l, x, e, y);
      SubstMentionsOther(r, x, e, y);
    case Cmp(_, l, r) =>
      SubstMentionsOther(l, x, e, y);
      SubstMentionsOther(r, x, e, y);
    case And(args) => SubstMentionsOtherAll(args, x, e, y);
    case Or(args) => SubstMentionsOtherAll(args, x, e, y);
  }

  lemma {:induction false} SubstMentionsOtherAll(ts: seq<Term>, x: Variable, e: Term, y: Variable)
    requires y != x
    ensures MentionsAny(SubstAll(ts, x, e), y) ==> MentionsAny(ts, y) || Mentions(e, y)
    ensures MentionsAny(SubstAll(ts, x, e), y) ==> MentionsAny(ts, y) || MentionsAny(ts, x)
    ensures MentionsAny(ts, y) ==> MentionsAny(SubstAll(ts, x, e), y)
    ensures MentionsAny(ts, x) && Mentions(e, y) ==> MentionsAny(SubstAll(ts, x, e), y)
    decreases ts
  {
    if ts != [] {
      var r := SubstAll(ts, x, e);
      assert r[0] == Subst(ts[0], x, e) && r[1..] == SubstAll(ts[1..], x, e);
      SubstMentionsOther(ts[0], x, e, y);
      SubstMentionsOtherAll(ts[1..], x, e, y);
    }
  }

  /** The replaced constant occurs in the result exactly when it occurs in
      `t` and in `e`: substitution leaves no occurrence of it unless `e`
      brings one. */
  lemma {:induction false} SubstMentionsReplaced(t: Term, x: Variable, e: Term)
    ensures Mentions(Subst(t, x, e), x) ==> Mentions(e, x)
    ensures Mentions(Subst(t, x, e), x) ==> Mentions(t, x)
    ensures Mentions(t, x) && Mentions(e, x) ==> Mentions(Subst(t, x, e), x)
    decreases t
  {
    match t
    case IntLit(_) =>
    case BoolLit(_) =>
    case VarRef(_) =>
    case Not(a) => SubstMentionsReplaced(a, x, e);
    case UMinus(a) => SubstMentionsReplaced(a, x, e);
    case Bin(_, l, r) =>
      SubstMentionsReplaced(l, x, e);
      SubstMentionsReplaced(r, x, e);
    case Cmp(_, l, r) =>
      SubstMentionsReplaced(l, x, e);
      SubstMentionsReplaced(r, x, e);
    case And(args) => SubstMentionsReplacedAll(args, x, e);
    case Or(args) => SubstMentionsReplacedAll(args, x, e);
  }

  lemma {:induction false} SubstMentionsReplacedAll(ts: seq<Term>, x: Variable, e: Term)
    ensures MentionsAny(SubstAll(ts, x, e), x) ==> Mentions(e, x)
    ensures MentionsAny(SubstAll(ts, x, e), x) ==> MentionsAny(ts, x)
    ensures MentionsAny(ts, x) && Mentions(e, x) ==> MentionsAny(SubstAll(ts, x, e), x)
    decreases ts
  {
    if ts != [] {
      var r := SubstAll(ts, x, e);
      assert r[0] == Subst(ts[0], x, e) && r[1..] == SubstAll(ts[1..], x, e);
      SubstMentionsReplaced(ts[0], x, e);
      SubstMentionsReplacedAll(ts[1..], x, e);
    }
  }

  /** Substituting for a constant that does not occur changes nothing. */
  lemma {:induction false} SubstAbsent(t: Term, x: Variable, e: Term)
    requires !Mentions(t, x)
    ensures Subst(t, x, e) == t
    decreases t
  {
    match t
    case IntLit(_) =>
    case BoolLit(_) =>
    case VarRef(_) =>
    case Not(a) => SubstAbsent(a, x, e);
    case UMinus(a) => SubstAbsent(a, x, e);
    case Bin(_, l, r) =>
      SubstAbsent(l, x, e);
      SubstAbsent(r, x, e);
    case Cmp(_, l, r) =>
      SubstAbsent(l, x, e);
      SubstAbsent(r, x, e);
    case And(args) => SubstAbsentAll(args, x, e);
    case Or(args) => SubstAbsentAll(args, x, e);
  }

  lemma {:induction false} SubstAbsentAll(ts: seq<Term>, x: Variable, e: Term)
    requires !MentionsAny(ts, x)
    ensures SubstAll(ts, x, e) == ts
    decreases ts
  {
    if ts != [] {
      SubstAbsent(ts[0], x, e);
      SubstAbsentAll(ts[1..], x, e);
      assert ts == [ts[0]] + ts[1..];
    }
  }

  /** The substitution lemma: evaluating the substituted term in `s` is
      evaluating `t` in `s` with `x` set to the value of `e` in `s`. */
  lemma {:induction false} SubstEval(t: Term, x: Variable, e: Term, s: State)
    requires TypeOf(e) == x.ty
    ensures Eval(Subst(t, x, e), s) == Eval(t, Update(s, x, Eval(e, s)))
    decreases t
  {
    match t
    case IntLit(_) =>
    case BoolLit(_) =>
    case VarRef(v) =>
      EvalHasSort(e, s);
      UpdateSameAndOther(s, x, Eval(e, s), v);
    case Not(a) => SubstEval(a, x, e, s);
    case UMinus(a) => SubstEval(a, x, e, s);
    case Bin(_, l, r) =>
      SubstEval(l, x, e, s);
      SubstEval(r, x, e, s);
    case Cmp(_, l, r) =>
      SubstEval(l, x, e, s);
      SubstEval(r, x, e, s);
    case And(args) => SubstEvalAll(args, x, e, s);
    case Or(args) => SubstEvalAll(args, x, e, s);
  }

  lemma {:induction false} SubstEvalAll(ts: seq<Term>, x: Variable, e: Term, s: State)
    requires TypeOf(e) == x.ty
    ensures EvalAll(SubstAll(ts, x, e), s) == EvalAll(ts, Update(s, x, Eval(e, s)))
    ensures EvalAny(SubstAll(ts, x, e), s) == EvalAny(ts, Update(s, x, Eval(e, s)))
    decreases ts
  {
    if ts != [] {
      var r := SubstAll(ts, x, e);
      assert r[0] == Subst(ts[0], x, e) && r[1..] == SubstAll(ts[1..], x, e);
      SubstEval(ts[0], x, e, s);
      SubstEvalAll(ts[1..], x, e, s);
    }
  }

  /** Substituting a term of the constant's own sort does not change the
      sort, and keeps a well-sorted term well sorted. */
  lemma {:induction false} SubstSorts(t: Term, x: Variable, e: Term)
    ensures TypeOf(e) == x.ty ==> TypeOf(Subst(t, x, e)) == TypeOf(t)
    ensures TypeOf(e) == x.ty && WellSorted(t) && WellSorted(e) ==> WellSorted(Subst(t, x, e))
    decreases t
  {
    match t
    case IntLit(_) =>
    case BoolLit(_) =>
    case VarRef(_) =>
    case Not(a) => SubstSorts(a, x, e);
    case UMinus(a) => SubstSorts(a, x, e);
    case Bin(_, l, r) =>
      SubstSorts(l, x, e);
      SubstSorts(r, x, e);
    case Cmp(_, l, r) =>
      SubstSorts(l, x, e);
      SubstSorts(r, x, e);
    case And(args) => SubstSortsAll(args, x, e);
    case Or(args) => SubstSortsAll(args, x, e);
  }

  lemma {:induction false} SubstSortsAll(ts: seq<Term>, x: Variable, e: Term)
    ensures TypeOf(e) == x.ty && AllWellSortedBool(ts) && WellSorted(e) ==> AllWellSortedBool(SubstAll(ts, x, e))
    decreases ts
  {
    if ts != [] {
      var r := SubstAll(ts, x, e);
      assert r[0] == Subst(ts[0], x, e) && r[1..] == SubstAll(ts[1..], x, e);
      SubstSorts(ts[0], x, e);
      SubstSortsAll(ts[1..], x, e);
    }
  }
}

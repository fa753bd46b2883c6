/** Terms of the two-sorted (integer, boolean) formula language that the
    verification-condition generator builds, with their sorts and a
    reference evaluator over a program state. */
module Terms {

  /** The two variable types of the source language. */
  datatype VarType = Int | Bool

  /** Binary arithmetic operators (the `addfun` .. `modfun` callbacks). */
  datatype ArithOp = Add | Sub | Mul | Div | Mod

  /** Comparison operators (the `ltfun` .. `nefun` callbacks). */
  datatype CompOp = Lt | Le | Gt | Ge | Eq | Ne

  /** A solver constant standing for a program variable. It is identified by
      its name AND its sort: an integer `x` and a boolean `x` are two
      different constants. */
  datatype Variable = Variable(name: string, ty: VarType)

  /** A formula term. */
  datatype Term =
    | IntLit(n: int)
    | BoolLit(b: bool)
    | VarRef(v: Variable)
    | Not(arg: Term)
    | UMinus(arg: Term)
    | Bin(aop: ArithOp, left: Term, right: Term)
    | Cmp(cop: CompOp, left: Term, right: Term)
    | And(args: seq<Term>)
    | Or(args: seq<Term>)

  /** The sort of a term, read off its head symbol: every term has exactly one. */
  function TypeOf(t: Term): VarType {
    match t
    case IntLit(_) => Int
    case BoolLit(_) => Bool
    case VarRef(v) => v.ty
    case Not(_) => Bool
    case UMinus(_) => Int
    case Bin(_, _, _) => Int
    case Cmp(_, _, _) => Bool
    case And(_) => Bool
    case Or(_) => Bool
  }

  /** Every operand has the sort its operator expects, all the way down. */
  predicate WellSorted(t: Term)
    decreases t
  {
    match t
    case IntLit(_) => true
    case BoolLit(_) => true
    case VarRef(_) => true
    case Not(a) => TypeOf(a) == Bool && WellSorted(a)
    case UMinus(a) => TypeOf(a) == Int && WellSorted(a)
    case Bin(_, l, r) => TypeOf(l) == Int && TypeOf(r) == Int && WellSorted(l) && WellSorted(r)
    case Cmp(_, l, r) => TypeOf(l) == Int && TypeOf(r) == Int && WellSorted(l) && WellSorted(r)
    case And(args) => AllWellSortedBool(args)
    case Or(args) => AllWellSortedBool(args)
  }

  /** Every term of `ts` is a well-sorted boolean term. */
  predicate AllWellSortedBool(ts: seq<Term>)
    decreases ts
  {
    ts == [] || (TypeOf(ts[0]) == Bool && WellSorted(ts[0]) && AllWellSortedBool(ts[1..]))
  }

  /** True when the constant `x` occurs in `t`. */
  predicate Mentions(t: Term, x: Variable)
    decreases t
  {
    match t
    case IntLit(_) => false
    case BoolLit(_) => false
    case VarRef(v) => v == x
    case Not(a) => Mentions(a, x)
    case UMinus(a) => Mentions(a, x)
    case Bin(_, l, r) => Mentions(l, x) || Mentions(r, x)
    case Cmp(_, l, r) => Mentions(l, x) || Mentions(r, x)
    case And(args) => MentionsAny(args, x)
    case Or(args) => MentionsAny(args, x)
  }

  /** True when the constant `x` occurs in some term of `ts`. */
  predicate MentionsAny(ts: seq<Term>, x: Variable)
    decreases ts
  {
    ts != [] && (Mentions(ts[0], x) || MentionsAny(ts[1..], x))
  }

  datatype Value = IntV(i: int) | BoolV(b: bool)

  function AsInt(v: Value): int {
    if v.IntV? then v.i else 0
  }

  function AsBool(v: Value): bool {
    v.BoolV? && v.b
  }

  /** An interpretation of the constants. Integer division and remainder by
      zero are left unspecified by the solver's theory: they are modelled as
      the uninterpreted functions `divZero` and `modZero` of the dividend, so
      every statement over all states holds whatever those values are. */
  datatype State = State(
    vals: Variable -> Value,
    divZero: int -> int,
    modZero: int -> int)

  /** The value of the constant `x` in `s`, read at the constant's sort. */
  function Lookup(s: State, x: Variable): Value {
    if x.ty == Int then IntV(AsInt(s.vals(x))) else BoolV(AsBool(s.vals(x)))
  }

  /** The state `s` with the constant `x` set to `v`. */
  function Update(s: State, x: Variable, v: Value): State {
    s.(vals := y => if y == x then v else s.vals(y))
  }

  /** Integer arithmetic of the solver: Euclidean division and remainder
      (the remainder is never negative), as Dafny's own `/` and `%`. */
  function ApplyArith(op: ArithOp, a: int, b: int, s: State): int {
    match op
    case Add => a + b
    case Sub => a - b
    case Mul => a * b
    case Div => if b == 0 then s.divZero(a) else a / b
    case Mod => if b == 0 then s.modZero(a) else a % b
  }

  function ApplyComp(op: CompOp, a: int, b: int): bool {
    match op
    case Lt => a < b
    case Le => a <= b
    case Gt => a > b
    case Ge => a >= b
    case Eq => a == b
    case Ne => a != b
  }

  /** The value of a term in a state. */
  function Eval(t: Term, s: State): Value
    decreases t
  {
    match t
    case IntLit(n) => IntV(n)
    case BoolLit(b) => BoolV(b)
    case VarRef(x) => Lookup(s, x)
    case Not(a) => BoolV(!AsBool(Eval(a, s)))
    case UMinus(a) => IntV(-AsInt(Eval(a, s)))
    case Bin(op, l, r) => IntV(ApplyArith(op, AsInt(Eval(l, s)), AsInt(Eval(r, s)), s))
    case Cmp(op, l, r) => BoolV(ApplyComp(op, AsInt(Eval(l, s)), AsInt(Eval(r, s))))
    case And(args) => BoolV(EvalAll(args, s))
    case Or(args) => BoolV(EvalAny(args, s))
  }

  /** Every term of `ts` is true in `s`; so the empty conjunction is true. */
  function EvalAll(ts: seq<Term>, s: State): bool
    decreases ts
  {
    ts == [] || (AsBool(Eval(ts[0], s)) && EvalAll(ts[1..], s))
  }

  /** Some term of `ts` is true in `s`; so the empty disjunction is false. */
  function EvalAny(ts: seq<Term>, s: State): bool
    decreases ts
  {
    ts != [] && (AsBool(Eval(ts[0], s)) || EvalAny(ts[1..], s))
  }

  /** The recursive conjunction and disjunction are the quantified ones. */
  lemma {:induction false} EvalAllAny(ts: seq<Term>, s: State)
    ensures EvalAll(ts, s) <==> forall i | 0 <= i < |ts| :: AsBool(Eval(ts[i], s))
    ensures EvalAny(ts, s) <==> exists i | 0 <= i < |ts| :: AsBool(Eval(ts[i], s))
    decreases |ts|
  {
    if ts != [] {
      EvalAllAny(ts[1..], s);
      assert forall i | 1 <= i < |ts| :: ts[i] == ts[1..][i - 1];
      if !AsBool(Eval(ts[0], s)) && exists i | 0 <= i < |ts| :: AsBool(Eval(ts[i], s)) {
        var i :| 0 <= i < |ts| && AsBool(Eval(ts[i], s));
        assert AsBool(Eval(ts[1..][i - 1], s));
      }
    }
  }

  /** The recursive well-sortedness of operand lists is the quantified one. */
  lemma {:induction false} AllWellSortedBoolIff(ts: seq<Term>)
    ensures AllWellSortedBool(ts) <==> forall i | 0 <= i < |ts| :: TypeOf(ts[i]) == Bool && WellSorted(ts[i])
    decreases |ts|
  {
    if ts != [] {
      AllWellSortedBoolIff(ts[1..]);
      assert forall i | 1 <= i < |ts| :: ts[i] == ts[1..][i - 1];
    }
  }

  /** A two-operand conjunction or disjunction is the binary one. */
  lemma EvalPair(a: Term, b: Term, s: State)
    ensures EvalAll([a, b], s) == (AsBool(Eval(a, s)) && AsBool(Eval(b, s)))
    ensures EvalAny([a, b], s) == (AsBool(Eval(a, s)) || AsBool(Eval(b, s)))
  {
    assert [a, b][1..] == [b];
    assert [b][1..] == [];
    assert EvalAll([b], s) == AsBool(Eval(b, s));
    assert EvalAny([b], s) == AsBool(Eval(b, s));
  }

  /** Two operands make a well-sorted boolean pair when each is one. */
  lemma WellSortedPair(a: Term, b: Term)
    ensures AllWellSortedBool([a, b]) ==
            (TypeOf(a) == Bool && WellSorted(a) && TypeOf(b) == Bool && WellSorted(b))
  {
    assert [a, b][1..] == [b];
    assert [b][1..] == [];
    assert AllWellSortedBool([b]) == (TypeOf(b) == Bool && WellSorted(b));
  }

  /** A term's value always has the term's sort. */
  lemma EvalHasSort(t: Term, s: State)
    ensures Eval(t, s).IntV? <==> TypeOf(t) == Int
    ensures Eval(t, s).BoolV? <==> TypeOf(t) == Bool
  {
  }

  /** Reading back a constant just written gives the written value, when the
      value has the constant's sort; every other constant keeps its value. */
  lemma UpdateSameAndOther(s: State, x: Variable, v: Value, y: Variable)
    requires v.IntV? <==> x.ty == Int
    ensures Lookup(Update(s, x, v), y) == if y == x then v else Lookup(s, y)
  {
  }
}

/** The analyzer's type checker and its term builders: each either returns a
    term of the expected sort or fails with a typing error. */
module Builders {
  import opened Terms
  import opened Results

  /** The type checker: only the sort of the term's head is examined. */
  function CheckType(t: Term, ty: VarType): (r: Outcome)
    ensures r.Pass? <==> TypeOf(t) == ty
    ensures r.Fail? ==> r.error == TypingError(t, ty)
  {
    if TypeOf(t) == ty then Pass else Fail(TypingError(t, ty))
  }

  /** Every term of `es` checked in turn against `ty`; the first one of
      another sort is the one reported. */
  function CheckAll(es: seq<Term>, ty: VarType): (r: Outcome)
    ensures r.Pass? <==> forall i | 0 <= i < |es| :: TypeOf(es[i]) == ty
    ensures r.Fail? ==> exists i | 0 <= i < |es| ::
              TypeOf(es[i]) != ty && r.error == TypingError(es[i], ty) &&
              forall j | 0 <= j < i :: TypeOf(es[j]) == ty
    decreases |es|
  {
    if es == [] then Pass
    else if TypeOf(es[0]) != ty then
      Fail(TypingError(es[0], ty))
    else
      var r := CheckAll(es[1..], ty);
      assert forall i | 1 <= i < |es| :: es[i] == es[1..][i - 1];
      assert r.Fail? ==> exists i | 1 <= i < |es| ::
              TypeOf(es[i]) != ty && r.error == TypingError(es[i], ty) &&
              forall j | 0 <= j < i :: TypeOf(es[j]) == ty;
      r
  }

  /** The literal `true`: the empty conjunction. */
  function True(): (r: Term)
    ensures TypeOf(r) == Bool && WellSorted(r)
    ensures forall s :: Eval(r, s) == BoolV(true)
  {
    And([])
  }

  /** The literal `false`: the empty disjunction. */
  function False(): (r: Term)
    ensures TypeOf(r) == Bool && WellSorted(r)
    ensures forall s :: Eval(r, s) == BoolV(false)
  {
    Or([])
  }

  /** An integer literal. */
  function Number(n: int): (r: Term)
    ensures TypeOf(r) == Int && WellSorted(r)
    ensures forall s :: Eval(r, s) == IntV(n)
  {
    IntLit(n)
  }

  /** The type named by the `int` keyword. */
  function IntType(): (r: VarType)
    ensures r == Int
  {
    Int
  }

  /** The type named by the `bool` keyword (the source returns the integer
      type here; this is the intended definition). */
  function BoolType(): (r: VarType)
    ensures r == Bool
  {
    Bool
  }

  /** Boolean negation: the operand must be boolean. */
  function Neg(e: Term): (r: Result<Term>)
    ensures r.Ok? <==> TypeOf(e) == Bool
    ensures r.Err? ==> r.error == TypingError(e, Bool)
    ensures r.Ok? ==> TypeOf(r.value) == Bool && (WellSorted(e) ==> WellSorted(r.value))
    ensures r.Ok? ==> forall s :: Eval(r.value, s) == BoolV(!AsBool(Eval(e, s)))
  {
    match CheckType(e, Bool)
    case Fail(err) => Err(err)
    case Pass => Ok(Not(e))
  }

  /** Unary minus: the operand must be an integer. */
  function Minus(e: Term): (r: Result<Term>)
    ensures r.Ok? <==> TypeOf(e) == Int
    ensures r.Err? ==> r.error == TypingError(e, Int)
    ensures r.Ok? ==> TypeOf(r.value) == Int && (WellSorted(e) ==> WellSorted(r.value))
    ensures r.Ok? ==> forall s :: Eval(r.value, s) == IntV(-AsInt(Eval(e, s)))
  {
    match CheckType(e, Int)
    case Fail(err) => Err(err)
    case Pass => Ok(UMinus(e))
  }

  /** A conjunction. A single operand is passed through unchecked (the
      grammar routes every expression through this rule); otherwise every
      operand must be boolean. */
  function Conj(es: seq<Term>): (r: Result<Term>)
    ensures |es| == 1 ==> r == Ok(es[0])
    ensures |es| != 1 ==> (r.Ok? <==> forall i | 0 <= i < |es| :: TypeOf(es[i]) == Bool)
    ensures |es| != 1 && r.Err? ==> CheckAll(es, Bool) == Fail(r.error)
    ensures r.Ok? && |es| != 1 ==> TypeOf(r.value) == Bool
    ensures r.Ok? && (forall i | 0 <= i < |es| :: WellSorted(es[i])) ==> WellSorted(r.value)
  {
    if |es| == 1 then Ok(es[0])
    else
      :- CheckAll(es, Bool);
      AllWellSortedBoolIff(es);
      Ok(And(es))
  }

  /** A disjunction, under the same rules as `Conj`. */
  function Disj(es: seq<Term>): (r: Result<Term>)
    ensures |es| == 1 ==> r == Ok(es[0])
    ensures |es| != 1 ==> (r.Ok? <==> forall i | 0 <= i < |es| :: TypeOf(es[i]) == Bool)
    ensures |es| != 1 && r.Err? ==> CheckAll(es, Bool) == Fail(r.error)
    ensures r.Ok? && |es| != 1 ==> TypeOf(r.value) == Bool
    ensures r.Ok? && (forall i | 0 <= i < |es| :: WellSorted(es[i])) ==> WellSorted(r.value)
  {
    if |es| == 1 then Ok(es[0])
    else
      :- CheckAll(es, Bool);
      AllWellSortedBoolIff(es);
      Ok(Or(es))
  }

  /** A conjunction of boolean operands is built and holds exactly where
      every operand does, whatever the number of operands. */
  lemma ConjEval(es: seq<Term>, s: State)
    requires forall i | 0 <= i < |es| :: TypeOf(es[i]) == Bool
    ensures Conj(es).Ok?
    ensures Eval(Conj(es).value, s) == BoolV(forall i | 0 <= i < |es| :: AsBool(Eval(es[i], s)))
  {
    EvalAllAny(es, s);
    if |es| == 1 {
      EvalHasSort(es[0], s);
    }
  }

  /** A disjunction of boolean operands is built and holds exactly where
      some operand does, whatever the number of operands. */
  lemma DisjEval(es: seq<Term>, s: State)
    requires forall i | 0 <= i < |es| :: TypeOf(es[i]) == Bool
    ensures Disj(es).Ok?
    ensures Eval(Disj(es).value, s) == BoolV(exists i | 0 <= i < |es| :: AsBool(Eval(es[i], s)))
  {
    EvalAllAny(es, s);
    if |es| == 1 {
      EvalHasSort(es[0], s);
    }
  }

  /** A comparison: both operands must be integers, the left one is checked
      first; the result is boolean. */
  function Comp(e1: Term, op: CompOp, e2: Term): (r: Result<Term>)
    ensures r.Ok? <==> TypeOf(e1) == Int && TypeOf(e2) == Int
    ensures TypeOf(e1) != Int ==> r == Err(TypingError(e1, Int))
    ensures TypeOf(e1) == Int && TypeOf(e2) != Int ==> r == Err(TypingError(e2, Int))
    ensures r.Ok? ==> TypeOf(r.value) == Bool && (WellSorted(e1) && WellSorted(e2) ==> WellSorted(r.value))
    ensures r.Ok? ==> forall s :: Eval(r.value, s) == BoolV(ApplyComp(op, AsInt(Eval(e1, s)), AsInt(Eval(e2, s))))
  {
    match CheckType(e1, Int)
    case Fail(err) => Err(err)
    case Pass =>
      match CheckType(e2, Int)
      case Fail(err) => Err(err)
      case Pass => Ok(Cmp(op, e1, e2))
  }

  /** An arithmetic chain `e0 op1 e1 op2 e2 ...`, given as its first operand
      and the (operator, operand) pairs after it, so that the chain always
      has odd length. As in the source it is folded to the RIGHT:
      `op1(e0, <the chain that starts at e1>)`. The first operand is
      checked, then the rest of the chain is built, then its result is
      checked. */
  function Arith(e0: Term, rest: seq<(ArithOp, Term)>): (r: Result<Term>)
    ensures rest != [] && r.Ok? ==> TypeOf(r.value) == Int
    ensures rest == [] ==> r == Ok(e0)
    decreases |rest|
  {
    if rest == [] then Ok(e0)
    else
      :- CheckType(e0, Int);
      var e2 :- Arith(rest[0].1, rest[1..]);
      :- CheckType(e2, Int);
      Ok(Bin(rest[0].0, e0, e2))
  }

  /** The operands of a chain, in order. */
  function Operands(e0: Term, rest: seq<(ArithOp, Term)>): (r: seq<Term>)
    ensures |r| == |rest| + 1 && r[0] == e0
    ensures forall i | 0 <= i < |rest| :: r[i + 1] == rest[i].1
  {
    [e0] + seq(|rest|, i requires 0 <= i < |rest| => rest[i].1)
  }

  /** The value of a chain grouped to the right:
      `e0 op1 (e1 op2 (e2 ...))`. */
  function RightValue(e0: Term, rest: seq<(ArithOp, Term)>, s: State): int
    decreases |rest|
  {
    if rest == [] then AsInt(Eval(e0, s))
    else ApplyArith(rest[0].0, AsInt(Eval(e0, s)), RightValue(rest[0].1, rest[1..], s), s)
  }

  /** A chain of more than one operand is built exactly when every operand
      is an integer, and the first operand of another sort is the one
      reported. */
  lemma {:induction false} ArithChecks(e0: Term, rest: seq<(ArithOp, Term)>)
    requires rest != []
    ensures Arith(e0, rest).Ok? <==> CheckAll(Operands(e0, rest), Int).Pass?
    ensures Arith(e0, rest).Err? ==> CheckAll(Operands(e0, rest), Int) == Fail(Arith(e0, rest).error)
    decreases |rest|
  {
    var ops := Operands(e0, rest);
    var tail := Operands(rest[0].1, rest[1..]);
    var inner := Arith(rest[0].1, rest[1..]);
    if TypeOf(e0) != Int {
      assert CheckAll(ops, Int) == Fail(TypingError(e0, Int));
    } else {
      assert ops[1..] == tail;
      assert CheckAll(ops, Int) == CheckAll(tail, Int);
      if rest[1..] != [] {
        ArithChecks(rest[0].1, rest[1..]);
        assert Arith(e0, rest) == if inner.Err? then Err(inner.error) else Ok(Bin(rest[0].0, e0, inner.value));
      } else {
        assert tail == [rest[0].1] && tail[1..] == [];
        assert inner == Ok(rest[0].1);
      }
    }
  }

  /** A chain built from well-sorted operands is well sorted. */
  lemma {:induction false} ArithSorts(e0: Term, rest: seq<(ArithOp, Term)>)
    requires Arith(e0, rest).Ok?
    requires WellSorted(e0) && forall i | 0 <= i < |rest| :: WellSorted(rest[i].1)
    ensures WellSorted(Arith(e0, rest).value)
    decreases |rest|
  {
    if rest != [] {
      assert forall i | 0 <= i < |rest[1..]| :: rest[1..][i] == rest[i + 1];
      ArithSorts(rest[0].1, rest[1..]);
    }
  }

  /** The value of a built chain is its right-grouped value (a lone
      operand, passed through unchecked, must be an integer for this). */
  lemma {:induction false} ArithEval(e0: Term, rest: seq<(ArithOp, Term)>, s: State)
    requires Arith(e0, rest).Ok? && (rest == [] ==> TypeOf(e0) == Int)
    ensures Eval(Arith(e0, rest).value, s) == IntV(RightValue(e0, rest, s))
    decreases |rest|
  {
    if rest == [] {
      EvalHasSort(e0, s);
    } else {
      ArithEval(rest[0].1, rest[1..], s);
    }
  }

  /** The same chain grouped to the LEFT, as arithmetic is conventionally
      read: `(...(e0 op1 e1) op2 e2 ...)`. The operands are checked in the
      same order as by `Arith`. */
  function ArithLeft(e0: Term, rest: seq<(ArithOp, Term)>): (r: Result<Term>)
    ensures rest != [] && r.Ok? ==> TypeOf(r.value) == Int
    ensures rest == [] ==> r == Ok(e0)
    decreases |rest|
  {
    if rest == [] then Ok(e0)
    else
      var acc :- ArithLeft(e0, rest[..|rest| - 1]);
      :- CheckType(acc, Int);
      var last := rest[|rest| - 1];
      :- CheckType(last.1, Int);
      Ok(Bin(last.0, acc, last.1))
  }

  /** The conventional value of a chain: evaluated from left to right, each
      operator combining the value so far with the next operand. */
  function LeftValue(acc: int, rest: seq<(ArithOp, Term)>, s: State): int
    decreases |rest|
  {
    if rest == [] then acc
    else LeftValue(ApplyArith(rest[0].0, acc, AsInt(Eval(rest[0].1, s)), s), rest[1..], s)
  }

  /** The left-to-right value of a chain ends with its last operator. */
  lemma {:induction false} LeftValueLast(acc: int, rest: seq<(ArithOp, Term)>, s: State)
    requires rest != []
    ensures LeftValue(acc, rest, s) ==
            ApplyArith(rest[|rest| - 1].0, LeftValue(acc, rest[..|rest| - 1], s), AsInt(Eval(rest[|rest| - 1].1, s)), s)
    decreases |rest|
  {
    if |rest| > 1 {
      var acc' := ApplyArith(rest[0].0, acc, AsInt(Eval(rest[0].1, s)), s);
      LeftValueLast(acc', rest[1..], s);
      assert rest[1..][..|rest| - 2] == rest[..|rest| - 1][1..];
    }
  }

  /** Checking a list one term longer: the shorter list's failure, if any,
      else the check of the new last term. */
  lemma {:induction false} CheckAllLast(es: seq<Term>, e: Term, ty: VarType)
    ensures CheckAll(es + [e], ty) == if CheckAll(es, ty).Fail? then CheckAll(es, ty) else CheckType(e, ty)
    decreases |es|
  {
    if es == [] {
      assert [e][1..] == [];
    } else {
      assert (es + [e])[1..] == es[1..] + [e];
      CheckAllLast(es[1..], e, ty);
    }
  }

  /** The left-grouped chain is built under exactly the same conditions as
      the right-grouped one, reporting the same operand. */
  lemma {:induction false} ArithLeftChecks(e0: Term, rest: seq<(ArithOp, Term)>)
    requires rest != []
    ensures ArithLeft(e0, rest).Ok? <==> CheckAll(Operands(e0, rest), Int).Pass?
    ensures ArithLeft(e0, rest).Err? ==> CheckAll(Operands(e0, rest), Int) == Fail(ArithLeft(e0, rest).error)
    decreases |rest|
  {
    var init := rest[..|rest| - 1];
    var last := rest[|rest| - 1];
    assert Operands(e0, rest) == Operands(e0, init) + [last.1];
    CheckAllLast(Operands(e0, init), last.1, Int);
    if init != [] {
      ArithLeftChecks(e0, init);
    } else {
      assert Operands(e0, init) == [e0];
      assert [e0][1..] == [];
    }
  }

  /** The value of a built left-grouped chain is the chain's
      left-to-right value. */
  lemma {:induction false} ArithLeftEval(e0: Term, rest: seq<(ArithOp, Term)>, s: State)
    requires ArithLeft(e0, rest).Ok? && (rest == [] ==> TypeOf(e0) == Int)
    ensures Eval(ArithLeft(e0, rest).value, s) == IntV(LeftValue(AsInt(Eval(e0, s)), rest, s))
    decreases |rest|
  {
    if rest == [] {
      EvalHasSort(e0, s);
    } else {
      ArithLeftEval(e0, rest[..|rest| - 1], s);
      LeftValueLast(AsInt(Eval(e0, s)), rest, s);
    }
  }

  /** `1 - 2 - 3` as the analyzer builds it is `1 - (2 - 3)`, of value 2;
      grouped to the left it has the conventional value -4. */
  lemma ArithGroupsRight(s: State)
    ensures Arith(IntLit(1), [(Sub, IntLit(2)), (Sub, IntLit(3))]) ==
            Ok(Bin(Sub, IntLit(1), Bin(Sub, IntLit(2), IntLit(3))))
    ensures Eval(Arith(IntLit(1), [(Sub, IntLit(2)), (Sub, IntLit(3))]).value, s) == IntV(2)
    ensures ArithLeft(IntLit(1), [(Sub, IntLit(2)), (Sub, IntLit(3))]) ==
            Ok(Bin(Sub, Bin(Sub, IntLit(1), IntLit(2)), IntLit(3)))
    ensures Eval(ArithLeft(IntLit(1), [(Sub, IntLit(2)), (Sub, IntLit(3))]).value, s) == IntV(-4)
  {
    var rest := [(Sub, IntLit(2)), (Sub, IntLit(3))];
    assert rest[1..] == [(Sub, IntLit(3))];
    assert rest[1..][1..] == [];
    assert rest[..1] == [(Sub, IntLit(2))];
    assert rest[..1][..0] == [];
  }
}

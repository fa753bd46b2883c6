/** The analyzer's build context: the table of declared variables, the
    method's signature, its pre- and postconditions and its body, together
    with the callbacks that resolve names and build instructions. */
module Analyzer {
  import opened Terms
  import opened Results
  import opened Instructions

  /** The declared variables and their types. */
  type Env = map<string, VarType>

  /** The variable that stands for the method's result. */
  const ReturnVar: string := "return"

  /** Declaring `name` with type `ty` in `env`. */
  function Declare(env: Env, ty: VarType, name: string): (r: Result<Env>)
    ensures r.Err? <==> name in env
    ensures r.Err? ==> r.error == DuplicateVariable(name)
    ensures r.Ok? ==> r.value.Keys == env.Keys + {name} && r.value[name] == ty
    ensures r.Ok? ==> forall n | n in env :: r.value[n] == env[n]
  {
    if name in env then Err(DuplicateVariable(name)) else Ok(env[name := ty])
  }

  /** A name can be declared once only, whatever the types of the two
      declarations. */
  lemma DeclareTwice(env: Env, ty1: VarType, ty2: VarType, name: string)
    requires Declare(env, ty1, name).Ok?
    ensures Declare(Declare(env, ty1, name).value, ty2, name) == Err(DuplicateVariable(name))
  {
  }

  /** A variable reference: the name must be declared, and the reference
      has the declared type. */
  function Var(env: Env, name: string): (r: Result<Term>)
    ensures r.Ok? <==> name in env
    ensures r.Err? ==> r.error == UndefinedVariable(name)
    ensures r.Ok? ==> TypeOf(r.value) == env[name] && WellSorted(r.value)
    ensures r.Ok? ==> forall y :: Mentions(r.value, y) <==> y == Variable(name, env[name])
    ensures r.Ok? ==> forall s :: Eval(r.value, s) == Lookup(s, Variable(name, env[name]))
  {
    if name !in env then Err(UndefinedVariable(name))
    else Ok(VarRef(Variable(name, env[name])))
  }

  /** An assignment: the name must be declared and the assigned term must
      have the variable's type. Both types are checked against their own
      tag (the source misspells the boolean one). */
  function AsgnInstr(env: Env, name: string, e: Term): (r: Result<Instr>)
    ensures r.Ok? <==> name in env && TypeOf(e) == env[name]
    ensures name !in env ==> r == Err(UndefinedVariable(name))
    ensures name in env && TypeOf(e) != env[name] ==> r == Err(TypingError(e, env[name]))
    ensures r.Ok? ==> (WellSorted(e) ==> WellFormed(r.value))
    ensures r.Ok? ==> forall s :: Exec(r.value, s) == Update(s, Variable(name, env[name]), Eval(e, s))
  {
    if name !in env then Err(UndefinedVariable(name))
    else if TypeOf(e) != env[name] then Err(TypingError(e, env[name]))
    else Ok(Asgn(Variable(name, env[name]), e))
  }

  /** `return e` is the assignment of `e` to the result variable. */
  function ReturnInstr(env: Env, e: Term): (r: Result<Instr>)
    ensures r == AsgnInstr(env, ReturnVar, e)
    ensures r.Ok? <==> ReturnVar in env && TypeOf(e) == env[ReturnVar]
  {
    AsgnInstr(env, ReturnVar, e)
  }

  /** A block: nothing is Skip, one instruction is itself, and more nest to
      the right. */
  function InstrSeq(instrs: seq<Instr>): (r: Instr)
    ensures instrs == [] ==> r == Skip
    ensures |instrs| == 1 ==> r == instrs[0]
    ensures |instrs| > 1 ==> r.Seq? && r.p1 == instrs[0]
    decreases |instrs|
  {
    if |instrs| == 0 then Skip
    else if |instrs| == 1 then instrs[0]
    else Seq(instrs[0], InstrSeq(instrs[1..]))
  }

  /** Running the instructions of a block one after the other, from the
      first. */
  function ExecAll(instrs: seq<Instr>, s: State): State
    decreases |instrs|
  {
    if instrs == [] then s else ExecAll(instrs[1..], Exec(instrs[0], s))
  }

  /** The postcondition pushed back through the instructions of a block one
      at a time, from the last. */
  function WpFromLast(instrs: seq<Instr>, q: Term): Term
    decreases |instrs|
  {
    if instrs == [] then q else WpFromLast(instrs[..|instrs| - 1], Wp(instrs[|instrs| - 1], q))
  }

  /** Pushing back through the whole block is pushing back through all but
      the first instruction, then through the first. */
  lemma {:induction false} WpFromLastFirst(instrs: seq<Instr>, q: Term)
    requires instrs != []
    ensures WpFromLast(instrs, q) == Wp(instrs[0], WpFromLast(instrs[1..], q))
    decreases |instrs|
  {
    var n := |instrs|;
    if n > 1 {
      var init := instrs[..n - 1];
      WpFromLastFirst(init, Wp(instrs[n - 1], q));
      assert init[0] == instrs[0];
      assert init[1..] == instrs[1..][..n - 2];
      assert instrs[1..][n - 2] == instrs[n - 1];
    }
  }

  /** The precondition of a block is the postcondition pushed back through
      its instructions from the last one to the first. */
  lemma {:induction false} InstrSeqWp(instrs: seq<Instr>, q: Term)
    ensures Wp(InstrSeq(instrs), q) == WpFromLast(instrs, q)
    decreases |instrs|
  {
    if |instrs| == 1 {
      assert instrs[..0] == [];
    } else if |instrs| > 1 {
      InstrSeqWp(instrs[1..], q);
      WpFromLastFirst(instrs, q);
    }
  }

  /** A block runs its instructions in order. */
  lemma {:induction false} InstrSeqExec(instrs: seq<Instr>, s: State)
    ensures Exec(InstrSeq(instrs), s) == ExecAll(instrs, s)
    decreases |instrs|
  {
    if |instrs| == 1 {
      assert instrs[1..] == [];
    } else if |instrs| > 1 {
      InstrSeqExec(instrs[1..], Exec(instrs[0], s));
    }
  }

  /** A block of well-formed instructions is well formed. */
  lemma {:induction false} InstrSeqWellFormed(instrs: seq<Instr>)
    requires forall i | 0 <= i < |instrs| :: WellFormed(instrs[i])
    ensures WellFormed(InstrSeq(instrs))
    decreases |instrs|
  {
    if |instrs| > 1 {
      assert forall i | 0 <= i < |instrs| - 1 :: instrs[1..][i] == instrs[i + 1];
      InstrSeqWellFormed(instrs[1..]);
    }
  }

  /** An `if` with an optional `else`: a missing `else` does nothing. */
  function ConditionalInstr(c: Term, ptrue: Instr, pfalse: Option<Instr>): (r: Result<Instr>)
    ensures r.Ok? <==> TypeOf(c) == Bool
    ensures r.Err? ==> r.error == NonBooleanCondition(c)
    ensures r.Ok? && WellSorted(c) && WellFormed(ptrue) && (pfalse.Some? ==> WellFormed(pfalse.value)) ==>
              WellFormed(r.value)
    ensures r.Ok? ==>
      forall s :: Exec(r.value, s) ==
        (if AsBool(Eval(c, s)) then Exec(ptrue, s)
         else if pfalse.Some? then Exec(pfalse.value, s) else s)
  {
    MakeCond(c, ptrue, pfalse.GetOr(Skip))
  }

  /** The analyzer's mutable state, filled in by the callbacks as a method
      declaration is read. */
  class ProgramAnalyzer {
    var varTypes: Env
    var methodName: Option<string>
    var methodReturnType: Option<VarType>
    var preconditions: seq<Term>
    var postconditions: seq<Term>
    var methodBody: Option<Instr>

    /** Every recorded pre- and postcondition is boolean, and a recorded
      body is well formed, so the weakest-precondition rules apply to it. */
    ghost predicate Valid()
      reads this
    {
      (forall i | 0 <= i < |preconditions| :: TypeOf(preconditions[i]) == Bool) &&
      (forall i | 0 <= i < |postconditions| :: TypeOf(postconditions[i]) == Bool) &&
      (methodBody.Some? ==> WellFormed(methodBody.value))
    }

    constructor ()
      ensures Valid()
      ensures varTypes == map[] && methodName == None && methodReturnType == None
      ensures preconditions == [] && postconditions == [] && methodBody == None
    {
      varTypes := map[];
      methodName := None;
      methodReturnType := None;
      preconditions := [];
      postconditions := [];
      methodBody := None;
    }

    /** Declares `name` with type `ty`; a name already declared is refused
      and leaves the table as it was. */
    method DeclareVar(ty: VarType, name: string) returns (r: Outcome)
      modifies this
      ensures r.Pass? ==> Declare(old(varTypes), ty, name) == Ok(varTypes)
      ensures r.Fail? ==> Declare(old(varTypes), ty, name) == Err(r.error) && varTypes == old(varTypes)
      ensures methodName == old(methodName) && methodReturnType == old(methodReturnType)
      ensures preconditions == old(preconditions) && postconditions == old(postconditions)
      ensures methodBody == old(methodBody)
    {
      if name in varTypes {
        return Fail(DuplicateVariable(name));
      }
      varTypes := varTypes[name := ty];
      return Pass;
    }

    /** Records the method's name and return type, then declares the result
      variable with the return type. The name and type are recorded even
      when that declaration is refused. */
    method SetMethodSignature(returnType: VarType, name: string) returns (r: Outcome)
      modifies this
      ensures methodName == Some(name) && methodReturnType == Some(returnType)
      ensures r.Pass? ==> Declare(old(varTypes), returnType, ReturnVar) == Ok(varTypes)
      ensures r.Fail? ==> Declare(old(varTypes), returnType, ReturnVar) == Err(r.error) && varTypes == old(varTypes)
      ensures r.Pass? ==> ReturnVar in varTypes && varTypes[ReturnVar] == returnType
      ensures preconditions == old(preconditions) && postconditions == old(postconditions)
      ensures methodBody == old(methodBody)
    {
      methodName := Some(name);
      methodReturnType := Some(returnType);
      r := DeclareVar(returnType, ReturnVar);
    }

    /** Adds a precondition, which must be boolean. */
    method AddPrecondition(e: Term) returns (r: Outcome)
      requires Valid()
      modifies this
      ensures Valid()
      ensures r.Pass? <==> TypeOf(e) == Bool
      ensures r.Fail? ==> r.error == TypingError(e, Bool)
      ensures preconditions == if r.Pass? then old(preconditions) + [e] else old(preconditions)
      ensures varTypes == old(varTypes) && methodName == old(methodName)
      ensures methodReturnType == old(methodReturnType)
      ensures postconditions == old(postconditions) && methodBody == old(methodBody)
    {
      if TypeOf(e) != Bool {
        return Fail(TypingError(e, Bool));
      }
      preconditions := preconditions + [e];
      return Pass;
    }

    /** Adds a postcondition, which must be boolean. */
    method AddPostcondition(e: Term) returns (r: Outcome)
      requires Valid()
      modifies this
      ensures Valid()
      ensures r.Pass? <==> TypeOf(e) == Bool
      ensures r.Fail? ==> r.error == TypingError(e, Bool)
      ensures postconditions == if r.Pass? then old(postconditions) + [e] else old(postconditions)
      ensures varTypes == old(varTypes) && methodName == old(methodName)
      ensures methodReturnType == old(methodReturnType)
      ensures preconditions == old(preconditions) && methodBody == old(methodBody)
    {
      if TypeOf(e) != Bool {
        return Fail(TypingError(e, Bool));
      }
      postconditions := postconditions + [e];
      return Pass;
    }

    /** Records the method body: the instructions, then the final `return`. */
    method SetMethodBody(program: Instr, returnInstr: Instr)
      requires Valid() && WellFormed(program) && WellFormed(returnInstr)
      modifies this
      ensures Valid()
      ensures methodBody.Some? && forall s :: Exec(methodBody.value, s) == Exec(returnInstr, Exec(program, s))
      ensures methodBody == Some(Seq(program, returnInstr))
      ensures varTypes == old(varTypes) && methodName == old(methodName)
      ensures methodReturnType == old(methodReturnType)
      ensures preconditions == old(preconditions) && postconditions == old(postconditions)
    {
      methodBody := Some(Seq(program, returnInstr));
    }

    /** A local declaration `ty name;` inside the body: declares `name`
      (the declaration callback fires first) and yields `Skip`. */
    method DeclInstr(ty: VarType, name: string) returns (r: Result<Instr>)
      modifies this
      ensures r.Ok? ==> r.value == Skip && Declare(old(varTypes), ty, name) == Ok(varTypes)
      ensures r.Err? ==> Declare(old(varTypes), ty, name) == Err(r.error) && varTypes == old(varTypes)
      ensures methodName == old(methodName) && methodReturnType == old(methodReturnType)
      ensures preconditions == old(preconditions) && postconditions == old(postconditions)
      ensures methodBody == old(methodBody)
    {
      var o := DeclareVar(ty, name);
      if o.Fail? {
        return Err(o.error);
      }
      return Ok(Skip);
    }
  }
}

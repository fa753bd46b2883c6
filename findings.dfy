/** Two callbacks as the source writes them, beside the intended
    definitions that the rest of the model uses. */
module Findings {
  import opened Terms
  import opened Results
  import opened Instructions
  import opened Builders
  import opened Analyzer

  /** The `bool` keyword as written: it names the integer type. */
  function BoolTypeAsWritten(): (r: VarType)
    ensures r == Int
  {
    Int
  }

  /** With the type as written, `bool flag; flag = true;` is refused: the
      variable is declared as an integer, so the boolean literal fails the
      type check. With the intended type the same assignment is built. */
  lemma BoolDeclarationRejectsTrue()
    ensures Declare(map[], BoolTypeAsWritten(), "flag") == Ok(map["flag" := Int])
    ensures AsgnInstr(map["flag" := Int], "flag", True()) == Err(TypingError(True(), Int))
    ensures Declare(map[], BoolType(), "flag") == Ok(map["flag" := Bool])
    ensures AsgnInstr(map["flag" := Bool], "flag", True()).Ok?
  {
  }

  /** With the type as written no variable is ever boolean: every
      declaration made from the two type keywords yields an integer. */
  lemma NoBooleanVariables(env: Env, useBool: bool, name: string)
    requires env.Values <= {Int} && name !in env
    ensures Declare(env, if useBool then BoolTypeAsWritten() else IntType(), name).value.Values == {Int}
  {
    var env' := Declare(env, Int, name).value;
    assert env'[name] == Int;
    forall v | v in env'.Values ensures v == Int {
      var n :| n in env' && env'[n] == v;
      if n != name {
        assert env[n] in env.Values;
      }
    }
  }

  /** A callback that either returns or raises a Python runtime error that
      is not an analyzer error. */
  datatype Run<+T> = Returns(result: Result<T>) | Crashes

  /** `asgn_instr` as written: the boolean branch names the type tag with
      the wrong case, which raises before any type check is made. */
  function AsgnInstrAsWritten(env: Env, name: string, e: Term): (r: Run<Instr>)
    ensures r.Crashes? <==> name in env && env[name] == Bool
    ensures name in env && env[name] == Int ==> r == Returns(AsgnInstr(env, name, e))
    ensures name !in env ==> r == Returns(Err(UndefinedVariable(name)))
  {
    if name !in env then Returns(Err(UndefinedVariable(name)))
    else if env[name] == Int then
      (if TypeOf(e) != Int then Returns(Err(TypingError(e, Int)))
       else Returns(Ok(Asgn(Variable(name, Int), e))))
    else
      assert env[name] == Bool;
      Crashes
  }

  /** Assigning `true` to a boolean variable crashes as written and is built
      by the intended definition. */
  lemma AsgnToBooleanCrashes()
    ensures AsgnInstrAsWritten(map["flag" := Bool], "flag", True()) == Crashes
    ensures AsgnInstr(map["flag" := Bool], "flag", True()).Ok?
  {
  }

  /** On the environments the analyzer can produce as written (integers
      only) the written and the intended assignment agree. */
  lemma AsgnAgreesOnIntegers(env: Env, name: string, e: Term)
    requires env.Values <= {Int}
    ensures AsgnInstrAsWritten(env, name, e) == Returns(AsgnInstr(env, name, e))
  {
    if name in env {
      assert env[name] in env.Values;
    }
  }
}

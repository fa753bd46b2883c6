/** A whole method taken through the analyzer's callbacks, in the order the
    parser fires them (children before parents), and then through the
    driver:

      int max(int a, int b)
        ensures return >= a;
        ensures return >= b;
      {
        int m;
        m = a;
        if a < b { m = b; }
        return m;
      }
*/
module Scenarios {
  import opened Terms
  import opened Results
  import opened Instructions
  import opened Builders
  import opened Analyzer
  import opened Driver

  const A := Variable("a", Int)
  const B := Variable("b", Int)
  const M := Variable("m", Int)
  const Ret := Variable(ReturnVar, Int)

  /** The postconditions of `max`. */
  function MaxPost(): seq<Term> {
    [Cmp(Ge, VarRef(Ret), VarRef(A)), Cmp(Ge, VarRef(Ret), VarRef(B))]
  }

  /** The body of `max` as the analyzer records it. */
  function MaxBody(): Instr {
    Seq(Seq(Skip, Seq(Asgn(M, VarRef(A)), Cond(Cmp(Lt, VarRef(A), VarRef(B)), Asgn(M, VarRef(B)), Skip))),
        Asgn(Ret, VarRef(M)))
  }

  /** The declarations of `max` once its signature is read. */
  function MaxEnv(): Env {
    map["a" := Int, "b" := Int, ReturnVar := Int]
  }

  /** Running the body of `max` from `s`: the result is the larger
      argument, and the arguments keep their values. */
  lemma MaxBodyExec(s: State)
    ensures AsInt(Lookup(Exec(MaxBody(), s), Ret)) >= AsInt(Lookup(s, A))
    ensures AsInt(Lookup(Exec(MaxBody(), s), Ret)) >= AsInt(Lookup(s, B))
    ensures Lookup(Exec(MaxBody(), s), A) == Lookup(s, A)
    ensures Lookup(Exec(MaxBody(), s), B) == Lookup(s, B)
  {
    var asg1, asg2, asgR := Asgn(M, VarRef(A)), Asgn(M, VarRef(B)), Asgn(Ret, VarRef(M));
    var ite := Cond(Cmp(Lt, VarRef(A), VarRef(B)), asg2, Skip);
    var s1 := Exec(asg1, s);
    var s2 := Exec(ite, s1);
    var s3 := Exec(asgR, s2);
    assert MaxBody() == Seq(Seq(Skip, Seq(asg1, ite)), asgR);
    assert Exec(Seq(Skip, Seq(asg1, ite)), s) == s2 by {
      assert Exec(Skip, s) == s;
      assert Exec(Seq(asg1, ite), s) == s2;
    }
    forall y | y in {A, B, M} ensures Lookup(s1, y) == if y == M then Lookup(s, A) else Lookup(s, y) {
      ExecAsgnLookup(M, VarRef(A), s, y);
    }
    assert AsBool(Eval(ite.cond, s1)) == (AsInt(Lookup(s1, A)) < AsInt(Lookup(s1, B)));
    if AsInt(Lookup(s1, A)) < AsInt(Lookup(s1, B)) {
      assert s2 == Exec(asg2, s1);
      forall y | y in {A, B, M} ensures Lookup(s2, y) == if y == M then Lookup(s1, B) else Lookup(s1, y) {
        ExecAsgnLookup(M, VarRef(B), s1, y);
      }
    } else {
      assert s2 == Exec(Skip, s1) == s1;
    }
    forall y | y in {A, B, Ret} ensures Lookup(s3, y) == if y == Ret then Lookup(s2, M) else Lookup(s2, y) {
      ExecAsgnLookup(Ret, VarRef(M), s2, y);
    }
  }

  /** `max` meets its contract: its result is at least each argument. */
  lemma MaxMeetsContract()
    ensures ContractHolds([], MaxPost(), MaxBody())
  {
    forall s | Satisfies(s, [])
      ensures Satisfies(Exec(MaxBody(), s), MaxPost())
    {
      MaxBodyExec(s);
    }
  }

  /** So the query for `max` has no model. */
  lemma MaxQueryUnsat()
    ensures !Satisfiable(VerificationCondition([], MaxPost(), MaxBody()))
  {
    MaxMeetsContract();
    QueryUnsatIffContract([], MaxPost(), MaxBody());
  }

  /** The signature and the postconditions of `max`: every callback
      succeeds. */
  method AnalyzeMaxHeader(an: ProgramAnalyzer)
    requires an.Valid() && an.varTypes == map[] && an.preconditions == [] && an.postconditions == []
    modifies an
    ensures an.Valid()
    ensures an.varTypes == MaxEnv() && an.preconditions == [] && an.postconditions == MaxPost()
  {
    // int max(int a, int b)
    var o1 := an.DeclareVar(IntType(), "a");
    var o2 := an.DeclareVar(IntType(), "b");
    var o3 := an.SetMethodSignature(IntType(), "max");
    assert o1.Pass? && o2.Pass? && o3.Pass?;
    assert an.varTypes == MaxEnv();
    // ensures return >= a;
    var ret, a := Var(an.varTypes, ReturnVar), Var(an.varTypes, "a");
    var post1 := Comp(ret.value, Ge, a.value);
    var o4 := an.AddPostcondition(post1.value);
    // ensures return >= b;
    var b := Var(an.varTypes, "b");
    var post2 := Comp(ret.value, Ge, b.value);
    var o5 := an.AddPostcondition(post2.value);
    assert o4.Pass? && o5.Pass?;
  }

  /** The instructions `m = a; if a < b { m = b; }` once `m` is declared:
      every callback succeeds. */
  method AnalyzeMaxInstrs(env: Env) returns (instrs: seq<Instr>)
    requires env == MaxEnv()["m" := Int]
    ensures instrs == [Asgn(M, VarRef(A)), Cond(Cmp(Lt, VarRef(A), VarRef(B)), Asgn(M, VarRef(B)), Skip)]
  {
    // m = a;
    var a := Var(env, "a");
    var asg1 := AsgnInstr(env, "m", a.value);
    // if a < b { m = b; }
    var b := Var(env, "b");
    var cond := Comp(a.value, Lt, b.value);
    var asg2 := AsgnInstr(env, "m", b.value);
    var ite := ConditionalInstr(cond.value, asg2.value, None);
    instrs := [asg1.value, ite.value];
  }

  /** The body of `max` after its header: every callback succeeds. */
  method AnalyzeMaxBody(an: ProgramAnalyzer)
    requires an.Valid() && an.varTypes == MaxEnv()
    modifies an
    ensures an.Valid()
    ensures an.methodBody == Some(MaxBody())
    ensures an.preconditions == old(an.preconditions) && an.postconditions == old(an.postconditions)
  {
    // int m;
    var decl := an.DeclInstr(IntType(), "m");
    assert decl == Ok(Skip);
    var instrs := AnalyzeMaxInstrs(an.varTypes);
    var block := [decl.value] + instrs;
    var program := InstrSeq(block);
    assert block[1..] == instrs && instrs[1..] == [instrs[1]];
    assert InstrSeq(instrs) == Seq(instrs[0], InstrSeq([instrs[1]])) == Seq(instrs[0], instrs[1]);
    assert program == Seq(Skip, InstrSeq(instrs));
    // return m;
    var m := Var(an.varTypes, "m");
    var ret := ReturnInstr(an.varTypes, m.value);
    assert ret == Ok(Asgn(Ret, VarRef(M)));
    an.SetMethodBody(program, ret.value);
  }

  /** Analyzing `max` succeeds, and the query built from it has no model:
      the verifier reports the method correct. */
  method AnalyzeMax() returns (query: seq<Term>)
    ensures !Satisfiable(query)
  {
    var an := new ProgramAnalyzer();
    AnalyzeMaxHeader(an);
    AnalyzeMaxBody(an);
    assert an.preconditions == [] && an.postconditions == MaxPost() && an.methodBody.value == MaxBody();
    query := RunAnalyzed(an);
    MaxMeetsContract();
  }

  const X := Variable("x", Int)

  /** The body of `int id(int x) ensures return > x; { return x; }`. */
  function IdBody(): Instr {
    Seq(Skip, Asgn(Ret, VarRef(X)))
  }

  /** A method that breaks its contract gets a satisfiable query: the state
      where every variable is 0 is a counterexample. */
  lemma IdQuerySatisfiable()
    ensures Satisfiable(VerificationCondition([], [Cmp(Gt, VarRef(Ret), VarRef(X))], IdBody()))
    ensures !ContractHolds([], [Cmp(Gt, VarRef(Ret), VarRef(X))], IdBody())
  {
    var post := [Cmp(Gt, VarRef(Ret), VarRef(X))];
    var s := State(_ => IntV(0), _ => 0, _ => 0);
    assert Exec(IdBody(), s) == Exec(Asgn(Ret, VarRef(X)), s);
    ExecAsgnLookup(Ret, VarRef(X), s, Ret);
    ExecAsgnLookup(Ret, VarRef(X), s, X);
    var s' := Exec(IdBody(), s);
    assert Lookup(s', Ret) == Lookup(s', X) == Lookup(s, X) == IntV(0);
    assert !AsBool(Eval(post[0], s'));
    SatisfiesQuery([], post, IdBody(), s);
    assert Satisfies(s, VerificationCondition([], post, IdBody()));
  }
}

/** The driver: the solver query built from the analyzed method, and what
    the query's satisfiability says about the method. */
module Driver {
  import opened Terms
  import opened Instructions
  import Analyzer

  /** The query: every precondition, and the negation of the weakest
      precondition of the body for the conjunction of the postconditions. */
  function VerificationCondition(pre: seq<Term>, post: seq<Term>, body: Instr): (r: seq<Term>)
    ensures |r| == |pre| + 1 && r[..|pre|] == pre
    ensures r[|pre|] == Not(Wp(body, And(post)))
  {
    pre + [Not(Wp(body, And(post)))]
  }

  /** The assertions a solver accumulates, in the order they were added. */
  class Solver {
    var assertions: seq<Term>

    constructor ()
      ensures assertions == []
    {
      assertions := [];
    }

    method Add(t: Term)
      modifies this
      ensures assertions == old(assertions) + [t]
    {
      assertions := assertions + [t];
    }
  }

  /** The driver's loop: a fresh solver receives each precondition in turn,
      then the negated weakest precondition; the solver's assertions are the
      verification condition. */
  method BuildQuery(pre: seq<Term>, post: seq<Term>, body: Instr) returns (query: seq<Term>)
    ensures query == VerificationCondition(pre, post, body)
  {
    var solver := new Solver();
    var k := 0;
    while k < |pre|
      invariant 0 <= k <= |pre|
      invariant solver.assertions == pre[..k]
    {
      solver.Add(pre[k]);
      k := k + 1;
    }
    var wp := Wp(body, And(post));
    solver.Add(Not(wp));
    query := solver.assertions;
  }

  /** The driver after a successful analysis: it reads the analyzer's
      preconditions, postconditions and body and builds the query from them.
      The analyzer's invariant makes the body well formed, so the query is
      unsatisfiable exactly when the analyzed method meets its contract. */
  method RunAnalyzed(an: Analyzer.ProgramAnalyzer) returns (query: seq<Term>)
    requires an.Valid() && an.methodBody.Some?
    ensures query == VerificationCondition(an.preconditions, an.postconditions, an.methodBody.value)
    ensures !Satisfiable(query) <==> ContractHolds(an.preconditions, an.postconditions, an.methodBody.value)
  {
    var pre, post, body := an.preconditions, an.postconditions, an.methodBody.value;
    query := BuildQuery(pre, post, body);
    QueryUnsatIffContract(pre, post, body);
  }

  /** Every term of `fs` is true in `s`. */
  predicate Satisfies(s: State, fs: seq<Term>) {
    forall i | 0 <= i < |fs| :: AsBool(Eval(fs[i], s))
  }

  /** Some state makes every term of `fs` true. */
  ghost predicate Satisfiable(fs: seq<Term>) {
    exists s :: Satisfies(s, fs)
  }

  /** The method meets its contract: from every state that satisfies the
      preconditions, running the body reaches a state that satisfies the
      postconditions. */
  ghost predicate ContractHolds(pre: seq<Term>, post: seq<Term>, body: Instr) {
    forall s :: Satisfies(s, pre) ==> Satisfies(Exec(body, s), post)
  }

  /** A state satisfies the query exactly when it satisfies the
      preconditions and running the body from it breaks a postcondition. */
  lemma SatisfiesQuery(pre: seq<Term>, post: seq<Term>, body: Instr, s: State)
    requires WellFormed(body)
    ensures Satisfies(s, VerificationCondition(pre, post, body)) <==>
            Satisfies(s, pre) && !Satisfies(Exec(body, s), post)
  {
    var vc := VerificationCondition(pre, post, body);
    WpCorrect(body, And(post), s);
    EvalAllAny(post, Exec(body, s));
    assert forall i | 0 <= i < |pre| :: vc[i] == pre[i];
  }

  /** The query is unsatisfiable exactly when the method meets its
      contract; a satisfying state is a counterexample to it. */
  lemma QueryUnsatIffContract(pre: seq<Term>, post: seq<Term>, body: Instr)
    requires WellFormed(body)
    ensures !Satisfiable(VerificationCondition(pre, post, body)) <==> ContractHolds(pre, post, body)
  {
    var vc := VerificationCondition(pre, post, body);
    if Satisfiable(vc) {
      var s :| Satisfies(s, vc);
      SatisfiesQuery(pre, post, body, s);
    }
    if !ContractHolds(pre, post, body) {
      var s :| Satisfies(s, pre) && !Satisfies(Exec(body, s), post);
      SatisfiesQuery(pre, post, body, s);
    }
  }
}

# A verified model of the `verify.py` weakest-precondition checker

`verify.py` checks a single method of a tiny loop-free language. A method has
`int`/`bool` parameters, `requires`/`ensures` clauses, and a body. The body
holds declarations, assignments and `if`/`else`, and ends with `return e;`.
The tool works in three steps:

- The parser's callbacks (class `ProgramAnalyzer`) type-check each
  expression and build a solver term.
- The same callbacks build an instruction tree: `Skip`, `Seq`, `Cond`, `Asgn`.
- The driver asks the solver whether the preconditions together with the
  negated weakest precondition of the body (for the conjunction of the
  postconditions) are satisfiable. Unsatisfiable means the method meets its
  contract.

This project models that core in Dafny.

- **Terms** (`terms.dfy`, `substitution.dfy`). The solver's expressions
  become a two-sorted term datatype with a total evaluator. A constant is
  identified by its name *and* its sort, as the solver does.
  `z3.substitute` becomes a structural substitution, and the substitution
  lemma is proved.
- **Instructions** (`instructions.dfy`) carry the weakest-precondition
  function and a reference execution semantics. `WpCorrect` proves that
  the calculus is exact for every well-formed instruction.
- **Builders** (`builders.dfy`) are the type checker and the expression
  callbacks. Each returns a `Result` in place of raising
  `AnalyzerException`.
- **Analyzer** (`analyzer.dfy`) is the build context.
  - The state-changing callbacks are methods of the class
    `ProgramAnalyzer`, which has the source's six fields.
  - The read-only callbacks (`var`, `asgn_instr`, `return_instr`) are pure
    functions. They take the declaration table as a parameter.
- **Driver** (`driver.dfy`) is the loop that fills the solver and the query
  it produces. `QueryUnsatIffContract` proves that the query has no model
  exactly when the method meets its contract.
- **Findings** (`findings.dfy`) holds two callbacks exactly as written,
  next to the intended definitions.
- **Scenarios** (`scenarios.dfy`) takes a whole method `max` through the
  callbacks and the driver, and proves its query unsatisfiable. A second
  method, `id`, breaks its contract, and the proof finds its
  counterexample state.

A few conventions carry over from the source:

- The solver leaves integer division and remainder by zero unspecified.
  The state therefore carries two arbitrary functions, `divZero` and
  `modZero`, that give those values. Every semantic statement holds for
  all of them.
- Division and remainder by a nonzero divisor are Euclidean, as in the
  solver's integer theory.
- A parameter named `return` makes the signature's implicit declaration
  fail as a duplicate. This follows from the parser's order: it fires
  the declaration callbacks of the parameters before
  `set_method_signature`, so the parameters are declared before `return`.
  The model follows that order (see `Scenarios.AnalyzeMaxHeader`), so
  `return` is declared after every parameter.

## Model

| member | source | states |
|---|---|---|
| Terms.EvalAllAny | verify.py:197-221 | an n-ary conjunction is true iff every operand is, a disjunction iff some operand is (so the empty ones are true and false) |
| Terms.AllWellSortedBoolIff | verify.py:207-221 | an operand list is well sorted iff every operand is a well-sorted boolean |
| Terms.EvalHasSort | verify.py:290-302 | every term has exactly one sort, and its value has that sort |
| Terms.UpdateSameAndOther | verify.py:57-58 | after writing a constant, reading it gives the written value and every other constant is unchanged |
| Substitution.Subst | verify.py:57-58 | substituting a term of the constant's sort keeps the head sort; `SubstEval`, `SubstMentionsReplaced`, `SubstMentionsOther`, `SubstAbsent` and `SubstSorts` prove its meaning, its effect on occurring constants, that it is the identity for an absent constant, and that well-sortedness is kept |
| Substitution.SubstAll | verify.py:57-58 | substitution maps an operand list to one of the same length |
| Substitution.SubstMentionsReplaced | verify.py:57-58 | after substitution the replaced constant occurs iff it occurs in both the postcondition and the assigned term |
| Substitution.SubstMentionsOther | verify.py:57-58 | any other constant occurs after substitution iff it occurred before, or the replaced one occurred and the assigned term mentions it |
| Substitution.SubstAbsent | verify.py:57-58 | substituting for an absent constant rebuilds the term unchanged |
| Substitution.SubstEval | verify.py:57-58 | substitution lemma: the substituted term's value in s is the original's value in s updated with the assigned value |
| Substitution.SubstSorts | verify.py:57-58 | a same-sort substitution keeps the sort, and keeps well-sorted terms well sorted |
| Instructions.MakeCond | verify.py:39-44 | a conditional is built iff its condition is boolean, otherwise the non-boolean-condition error |
| Instructions.CondPre | verify.py:46-49 | the case-split precondition is boolean, and well sorted when its parts are |
| Instructions.CondPreEval | verify.py:46-49 | the case split takes the then-value where the condition holds and the else-value where it does not |
| Instructions.Wp | verify.py:15-58 | the weakest precondition of a well-formed instruction for a boolean postcondition is boolean, and well sorted when the postcondition is |
| Instructions.WpSkip | verify.py:23-25 | Skip's precondition is the postcondition |
| Instructions.WpSeqAssoc | verify.py:33-35 | Seq pushes through p2, then p1; both groupings of a three-part sequence give the same term |
| Instructions.WpCond | verify.py:46-49 | the conditional's precondition has the then-branch's value where the condition holds and the else-branch's elsewhere |
| Instructions.WpAsgn | verify.py:57-58 | the assignment's precondition holds in s iff the postcondition holds after the variable is set to the term's value |
| Instructions.ExecAsgnLookup | verify.py:51-58 | after an assignment the variable holds the term's value and all other variables keep theirs |
| Instructions.WpCorrect | verify.py:15-58 | for every well-formed instruction and boolean postcondition, the weakest precondition holds in s iff the postcondition holds after running the instruction from s |
| Builders.CheckType | verify.py:290-302 | the check passes iff the term's head sort is the expected one, else a typing error naming the term and the expected type |
| Builders.CheckAll | verify.py:211-212 | all operands pass iff each has the sort; otherwise the reported error is the first operand of another sort |
| Builders.True | verify.py:197-198 | `true` is a boolean term true in every state |
| Builders.False | verify.py:200-201 | `false` is a boolean term false in every state |
| Builders.Number | verify.py:239-240 | a literal is an integer term with the literal's value in every state |
| Builders.IntType | verify.py:304-305 | the `int` keyword denotes the integer type |
| Builders.BoolType | verify.py:307-308 | the `bool` keyword denotes the boolean type (intended definition) |
| Builders.Neg | verify.py:203-205 | built iff the operand is boolean, with the operand's typing error otherwise; the result is boolean, well sorted, and the logical negation |
| Builders.Minus | verify.py:260-262 | built iff the operand is an integer, with its typing error otherwise; the result is an integer, well sorted, and the arithmetic negation |
| Builders.Conj | verify.py:207-213 | one operand is returned unchecked; otherwise built iff every operand is boolean, reporting the first that is not; the result is boolean and keeps well-sortedness |
| Builders.Disj | verify.py:215-221 | one operand is returned unchecked; otherwise built iff every operand is boolean, reporting the first that is not; the result is boolean and keeps well-sortedness |
| Builders.ConjEval | verify.py:207-213 | for boolean operands the conjunction is built and is true iff every operand is |
| Builders.DisjEval | verify.py:215-221 | for boolean operands the disjunction is built and is true iff some operand is |
| Builders.Comp | verify.py:223-226 | built iff both operands are integers, the left one reported first; the result is boolean, well sorted, and compares the operands' values |
| Builders.Arith | verify.py:228-237 | a single operand is passed through unchanged; a chain of more than one operand yields an integer term |
| Builders.ArithChecks | verify.py:228-237 | a chain is built iff every operand is an integer, and the error names the first operand that is not |
| Builders.ArithSorts | verify.py:228-237 | a chain built from well-sorted operands is well sorted |
| Builders.ArithEval | verify.py:228-237 | a built chain evaluates to its right-grouped value `e0 op1 (e1 op2 (...))` |
| Builders.ArithLeft | verify.py:228-237 | the left-grouped chain (intended definition): a single operand is passed through unchanged; a longer chain yields an integer term |
| Builders.LeftValueLast | verify.py:228-237 | the left-to-right value of a chain ends by applying its last operator to the value of the chain without it |
| Builders.CheckAllLast | verify.py:211-212 | checking a list one term longer gives the shorter list's failure, else the check of the new term |
| Builders.ArithLeftChecks | verify.py:228-237 | the left-grouped chain succeeds and fails exactly as the source's chain does, naming the same operand |
| Builders.ArithLeftEval | verify.py:228-237 | the left-grouped chain evaluates to the chain's left-to-right value |
| Builders.ArithGroupsRight | verify.py:233-237 | `1 - 2 - 3` is built as `1 - (2 - 3)` of value 2; grouped to the left it has value -4 |
| Analyzer.Declare | verify.py:192-195 | a declaration fails iff the name is already declared (the duplicate error); otherwise it adds exactly that name with its type and keeps all other entries |
| Analyzer.DeclareTwice | verify.py:141-144 | once a name is declared (so `return` after the signature), declaring it again fails, whatever the types |
| Analyzer.Var | verify.py:279-288 | a reference is built iff the name is declared (else the undefined-variable error); it has the declared type, mentions exactly that constant and evaluates to its value |
| Analyzer.AsgnInstr | verify.py:165-177 | built iff the name is declared and the term has its type; the undefined name is reported before the type; the result sets the variable to the term's value (boolean tag corrected) |
| Analyzer.ReturnInstr | verify.py:182-185 | `return e` is exactly the assignment of e to `return`, built iff `return` is declared with e's type |
| Analyzer.InstrSeq | verify.py:154-160 | no instructions give Skip, one gives itself, more give a Seq headed by the first |
| Analyzer.WpFromLastFirst | verify.py:154-160 | pushing a postcondition back from the last instruction equals pushing it through the rest, then through the first |
| Analyzer.InstrSeqWp | verify.py:154-160 | a block's precondition is the postcondition pushed back through its instructions from the last to the first |
| Analyzer.InstrSeqExec | verify.py:154-160 | a block runs its instructions in order from the first |
| Analyzer.InstrSeqWellFormed | verify.py:154-160 | a block of well-formed instructions is well formed |
| Analyzer.ConditionalInstr | verify.py:187-190 | built iff the condition is boolean; a missing else does nothing; it runs the then-branch where the condition holds |
| Analyzer.ProgramAnalyzer.constructor | verify.py:130-136 | an empty table, no signature, no conditions, no body |
| Analyzer.ProgramAnalyzer.DeclareVar | verify.py:192-195 | updates the table as `Declare` does and changes nothing else; on a duplicate the table is unchanged |
| Analyzer.ProgramAnalyzer.SetMethodSignature | verify.py:141-144 | records name and return type (even if the declaration fails), then declares `return` with the return type |
| Analyzer.ProgramAnalyzer.AddPrecondition | verify.py:146-148 | appends a boolean precondition, else a typing error and no change; all recorded conditions stay boolean |
| Analyzer.ProgramAnalyzer.AddPostcondition | verify.py:150-152 | appends a boolean postcondition, else a typing error and no change; all recorded conditions stay boolean |
| Analyzer.ProgramAnalyzer.SetMethodBody | verify.py:138-139 | the body runs the instructions and then the return assignment; a body built from well-formed parts keeps the analyzer's invariant, which includes a well-formed body |
| Analyzer.ProgramAnalyzer.DeclInstr | verify.py:179-180 | a local declaration updates the table as `Declare` does and yields Skip |
| Driver.VerificationCondition | verify.py:335-341 | the query is the preconditions in order followed by the negated weakest precondition of the body for the conjunction of the postconditions |
| Driver.Solver.constructor | verify.py:332 | a fresh solver holds no assertions |
| Driver.Solver.Add | verify.py:335 | appends one assertion |
| Driver.BuildQuery | verify.py:332-341 | the driver's loop leaves exactly the verification condition in the solver |
| Driver.RunAnalyzed | verify.py:326-341 | the driver reads the analyzer's conditions and body and builds the verification condition; for an analyzer that keeps its invariant the query is unsatisfiable iff the method meets its contract |
| Driver.SatisfiesQuery | verify.py:335-341 | a state satisfies the query iff it satisfies the preconditions and running the body breaks a postcondition |
| Driver.QueryUnsatIffContract | verify.py:335-341 | for a well-formed body the query is unsatisfiable iff the method meets its contract |
| Findings.BoolTypeAsWritten | verify.py:307-308 | as written, the `bool` keyword yields the integer type |
| Findings.BoolDeclarationRejectsTrue | verify.py:307-308 | as written, `bool flag; flag = true;` fails with a typing error; with the intended type it is built |
| Findings.NoBooleanVariables | verify.py:304-308 | as written, every declaration from the type keywords keeps the table integer-only |
| Findings.AsgnInstrAsWritten | verify.py:165-177 | as written, assigning to a declared boolean crashes, and an integer assignment agrees with the intended one |
| Findings.AsgnToBooleanCrashes | verify.py:172-174 | assigning `true` to a boolean crashes as written and is built by the intended definition |
| Findings.AsgnAgreesOnIntegers | verify.py:165-177 | on integer-only tables the written and intended assignments agree |
| Scenarios.MaxBodyExec | verify.py:15-58 | running the body of `max` sets `return` to at least each argument and keeps the arguments |
| Scenarios.MaxMeetsContract | verify.py:15-58 | `max` meets its contract |
| Scenarios.MaxQueryUnsat | verify.py:335-341 | the query for `max` has no model |
| Scenarios.AnalyzeMaxHeader | verify.py:141-152 | the signature and postcondition callbacks of `max` all succeed and record its table and postconditions |
| Scenarios.AnalyzeMaxInstrs | verify.py:165-190 | the instruction callbacks of `max` all succeed and build its instructions |
| Scenarios.AnalyzeMaxBody | verify.py:138-185 | the body callbacks of `max` all succeed and record its body |
| Scenarios.AnalyzeMax | verify.py:326-341 | analyzing `max` succeeds and yields an unsatisfiable query |
| Scenarios.IdQuerySatisfiable | verify.py:335-341 | for `return x` under `ensures return > x` the query is satisfiable and the contract fails |

## Left out

- The Lark grammar and the parser (verify.py:63-125, 311-312) are not modelled. The callbacks are the interface. Their firing order (children before parents) appears only in `Scenarios`.
- The solver is not modelled: `s.check()`, and z3's own `substitute`, `is_int` and `is_bool`. Satisfiability is the predicate `Driver.Satisfiable` over all states.
- The command line, file reading and the printed result messages (verify.py:314-324, 344-347) are left out because they are I/O. Two details of the messages are not modelled:
  - Each message contradicts itself. Its first two sentences match the outcome, but the conclusion after `=>` is inverted. A satisfiable query prints "La vérification a échoué. Les pré-conditions ne garantissent pas la post-condition. => Le programme répond à sa spécification."; any other answer prints "La vérification a réussi. Les pré-conditions garantissent la post-condition. => Le programme ne répond pas à sa specification."
  - An `unknown` answer falls into the `else` branch and prints the second message, "La vérification a réussi. … => Le programme ne répond pas à sa specification."
- The module-level singleton `analyzer` (verify.py:310) is left out. The model uses an explicit `ProgramAnalyzer` object.
- Which exception class is raised is not modelled: `AnalyzerException`, or the plain `Exception` raised for a duplicate name (verify.py:194) and a non-boolean condition (verify.py:41). The command line catches only `AnalyzerException`. Every failure is an `AnalyzerError` value. Error message texts are not modelled either; an error carries the offending term or name.
- The operator callbacks (verify.py:242-258, 264-277) return the solver's operator functions. The model represents them as the tags `CompOp` and `ArithOp`.
- `skip_instr` (verify.py:162-163) is bare `Skip`, and `decl_instr` (verify.py:179-180) receives no argument the model needs. `DeclInstr` combines it with the declaration callback that fires just before it.
- `Builders.Number` takes an integer. Converting the `NUMBER` lexeme (possibly a decimal) into a solver integer is not modelled.
- The parameter-list argument of `set_method_signature` (verify.py:141) is ignored, as in the source.
- `method_name` and `method_return_type` are never read by the source; the model only records them.
- The `assert False` default branches (verify.py:175-176, 287-288, 299-300) are not modelled. `VarType` has two values, so no such branch exists.
- `Builders.Arith` does not model the `assert len(exprs) > 2` failure. The chain is a first operand plus (operator, operand) pairs, so its length is always odd.
- `Instructions.Wp` does not model the error `z3.substitute` raises when an assignment's term has another sort than the variable. `AsgnInstr` never builds such an assignment, so `WpCorrect` assumes well-formed instructions.
- `Driver.RunAnalyzed` requires a recorded body and does not model a driver run whose body was never set (a crash in the source). A successful parse always sets the body.

## Findings

| source | as written | input that shows it | evidently intended | confidence | as-written member | corrected member |
|---|---|---|---|---|---|---|
| verify.py:307-308 | `bool_type` returns the integer type, so every `bool` declaration declares an integer | `bool flag; flag = true;` is refused with a typing error on `true` | the `bool` keyword yields the boolean type | high, not executed | Findings.BoolTypeAsWritten (shown by Findings.BoolDeclarationRejectsTrue, Findings.NoBooleanVariables) | Builders.BoolType |
| verify.py:172-174 | the boolean branch of `asgn_instr` names the type tag `VarType.Bool`, which does not exist, so it raises a Python attribute error before any type check | declaring `flag` as boolean (once the finding above is corrected), then `flag = true;` | check the term against the boolean type and build the assignment | high, not executed | Findings.AsgnInstrAsWritten (shown by Findings.AsgnToBooleanCrashes) | Analyzer.AsgnInstr |
| verify.py:233-237 | `arith` folds a chain to the right, so `-`, `/` and `%` group as `a - (b - c)` | `1 - 2 - 3` is built as `1 - (2 - 3)`, whose value is 2 | left grouping, `(1 - 2) - 3`, whose value is -4 | medium, not executed | Builders.Arith (shown by Builders.ArithGroupsRight) | Builders.ArithLeft (Builders.ArithLeftChecks, Builders.ArithLeftEval) |

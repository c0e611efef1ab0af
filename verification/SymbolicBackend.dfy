/** The symbolic proof backend: formulas for the problem, a base check, then the negated claim. */
module SymbolicBackend {
  import opened Prelude
  import opened Domain
  import opened State
  import opened Solutions
  import opened Encoding
  import EquationsSymbolic
  import Grid
  import S = Smt

  datatype Status = Sat | Unsat | Unknown

  type Solver = set<S.Formula> -> Status

  ghost predicate ModelOf(m: S.Model, formulas: set<S.Formula>) {
    forall f :: f in formulas ==> S.Satisfies(m, f)
  }

  ghost predicate Satisfiable(formulas: set<S.Formula>) {
    exists m :: ModelOf(m, formulas)
  }

  /** A solver may give up, but its definite answers are right. */
  ghost predicate Truthful(solver: Solver) {
    forall formulas ::
      && (solver(formulas) == Sat ==> Satisfiable(formulas))
      && (solver(formulas) == Unsat ==> !Satisfiable(formulas))
  }

  // ----- encoding -----

  function AtomFormula(atom: Atom, problem: Problem): S.Formula
    requires !atom.OtherAtom? && atom.variable in problem.variables
    requires atom.value in problem.variables[atom.variable].ids
  {
    var chosen := S.CodeIs(atom.variable, IndexOf(problem.variables[atom.variable].ids, atom.value));
    if atom.AssignmentAtom? then chosen else S.Neg(chosen)
  }

  /** `v` has one of the listed values. */
  function OneOf(v: VariableId, ids: seq<ValueId>, xs: seq<ValueId>): seq<S.Formula>
    requires forall x :: x in xs ==> x in ids
  {
    if xs == [] then [] else [S.CodeIs(v, IndexOf(ids, xs[0]))] + OneOf(v, ids, xs[1..])
  }

  function CandidateFormula(problem: Problem, v: VariableId): S.Formula
    requires v in problem.variables
    requires problem.variables[v].candidates <= Elements(problem.variables[v].ids)
  {
    var item := problem.variables[v];
    S.Disj(OneOf(v, item.ids, Ascending(item.candidates)))
  }

  function ConstraintFormula(problem: Problem, c: Constraint): Result<S.Formula> {
    match c
    case DomainConstraint(_, v, allowed) =>
      if v in problem.variables && forall x :: x in allowed ==> x in problem.variables[v].ids
      then Ok(S.Disj(OneOf(v, problem.variables[v].ids, allowed))) else Err(Error.Encoding)
    case AllDifferentConstraint(_, vs) =>
      if forall v :: v in vs ==> v in problem.variables then Ok(S.Distinct(vs)) else Err(Error.Encoding)
    case ArithmeticConstraint(_, e) =>
      if problem.family == LOGIC_GRID_FAMILY then Grid.Encode(e, problem.Table())
      else EquationsSymbolic.EncodeBoolean(e, problem.Table())
    case OtherConstraint(_) => Err(Error.Encoding)
  }

  function CandidateFormulas(problem: Problem): set<S.Formula>
    requires WellEncoded(problem)
  {
    set v | v in problem.variables :: CandidateFormula(problem, v)
  }

  function ConstraintFormulas(problem: Problem): Result<set<S.Formula>> {
    if exists c :: c in problem.constraints && ConstraintFormula(problem, c).Err? then Err(Error.Encoding)
    else Ok(set c | c in problem.constraints :: ConstraintFormula(problem, c).value)
  }

  function AtomFormulas(problem: Problem): set<S.Formula>
    requires WellEncoded(problem)
  {
    (set atom | atom in problem.asserted :: AtomFormula(atom, problem))
    + (set atom | atom in problem.assumptions :: AtomFormula(atom, problem))
  }

  /** Everything asserted before the base check. */
  function Formulas(problem: Problem): Result<set<S.Formula>>
    requires WellEncoded(problem)
  {
    var constraints :- ConstraintFormulas(problem);
    Ok(CandidateFormulas(problem) + constraints + AtomFormulas(problem))
  }

  /** The order of the checks: an unsatisfiable source is refused before the claim is looked at. */
  function Check(solver: Solver, problem: Problem): BackendResult
    requires WellEncoded(problem)
  {
    var formulas := Formulas(problem);
    if formulas.Err? then InvalidResult
    else
      match solver(formulas.value)
      case Unsat => InvalidResult
      case Unknown => UnknownResult
      case Sat =>
        match solver(formulas.value + {AtomFormula(problem.counter, problem)})
        case Unsat => UnsatResult
        case Sat => SatResult
        case Unknown => UnknownResult
  }

  function Verify(solver: Solver, puzzle: Puzzle, state: PuzzleState, obligation: Obligation): BackendResult
    requires puzzle.WellFormed()
  {
    var problem := Prepare(puzzle, state, obligation);
    if problem.Err? then InvalidResult
    else
      PreparedIsWellEncoded(puzzle, state, obligation);
      Check(solver, problem.value)
  }

  /** What a definite answer says about the formulas, when the solver tells the truth. */
  lemma {:induction false} AnswersMean(solver: Solver, problem: Problem)
    requires WellEncoded(problem) && Truthful(solver)
    requires Check(solver, problem).SatResult? || Check(solver, problem).UnsatResult?
    ensures Formulas(problem).Ok? && Satisfiable(Formulas(problem).value)
    ensures Check(solver, problem).SatResult? <==>
      Satisfiable(Formulas(problem).value + {AtomFormula(problem.counter, problem)})
  {
  }

  // ----- models are solutions -----

  /** Codes in range for every variable. */
  ghost predicate InRange(puzzle: Puzzle, m: S.Model)
    requires puzzle.WellFormed()
  {
    forall v :: v in puzzle.variables ==> 0 <= m.Code(v) < |Ids(puzzle, v)|
  }

  ghost function Decode(puzzle: Puzzle, m: S.Model): Assignment
    requires puzzle.WellFormed() && InRange(puzzle, m)
  {
    map v | v in puzzle.variables :: Ids(puzzle, v)[m.Code(v)]
  }

  lemma {:induction false} DecodeCodes(puzzle: Puzzle, m: S.Model)
    requires puzzle.WellFormed() && InRange(puzzle, m)
    ensures Complete(puzzle, Decode(puzzle, m))
    ensures forall v :: v in puzzle.variables ==> CodesOf(puzzle, Decode(puzzle, m))[v] == m.Code(v)
  {
    forall v | v in puzzle.variables ensures IndexOf(Ids(puzzle, v), Decode(puzzle, m)[v]) == m.Code(v) {
      IndexIsUnique(Ids(puzzle, v), m.Code(v));
    }
  }

  lemma {:induction false} OneOfMeans(v: VariableId, ids: seq<ValueId>, xs: seq<ValueId>, m: S.Model)
    requires forall x :: x in xs ==> x in ids
    ensures S.SatisfiesAny(m, OneOf(v, ids, xs)) <==> exists i :: 0 <= i < |xs| && m.Code(v) == IndexOf(ids, xs[i])
  {
    if xs != [] {
      var rest := xs[1..];
      OneOfMeans(v, ids, rest, m);
      S.SatisfiesCons(m, S.CodeIs(v, IndexOf(ids, xs[0])), OneOf(v, ids, rest));
      assert forall i :: 0 <= i < |rest| ==> rest[i] == xs[i + 1];
      if i :| 0 <= i < |xs| && m.Code(v) == IndexOf(ids, xs[i]) {
        assert i == 0 || xs[i] == rest[i - 1];
      }
    }
  }

  /** Choosing among listed codes is choosing among listed values. */
  lemma {:induction false} ChoiceMeans(puzzle: Puzzle, v: VariableId, xs: seq<ValueId>, m: S.Model)
    requires puzzle.WellFormed() && v in puzzle.variables
    requires forall x :: x in xs ==> x in Ids(puzzle, v)
    ensures S.SatisfiesAny(m, OneOf(v, Ids(puzzle, v), xs)) ==> 0 <= m.Code(v) < |Ids(puzzle, v)|
    ensures 0 <= m.Code(v) < |Ids(puzzle, v)| ==>
      (S.SatisfiesAny(m, OneOf(v, Ids(puzzle, v), xs)) <==> Ids(puzzle, v)[m.Code(v)] in xs)
  {
    var ids := Ids(puzzle, v);
    OneOfMeans(v, ids, xs, m);
    if 0 <= m.Code(v) < |ids| {
      IndexIsUnique(ids, m.Code(v));
    }
  }

  lemma {:induction false} AtomFormulaMeans(puzzle: Puzzle, problem: Problem, atom: Atom, m: S.Model)
    requires puzzle.WellFormed() && InRange(puzzle, m) && Representable(atom, puzzle)
    requires atom.variable in problem.variables
    requires problem.variables[atom.variable].ids == Ids(puzzle, atom.variable)
    ensures S.Satisfies(m, AtomFormula(atom, problem)) <==> AtomHolds(atom, Decode(puzzle, m))
  {
    IndexIsUnique(Ids(puzzle, atom.variable), m.Code(atom.variable));
  }

  lemma {:induction false} ClueFormulaMeans(puzzle: Puzzle, problem: Problem, e: BooleanExpression, m: S.Model)
    requires puzzle.WellFormed() && InRange(puzzle, m)
    requires problem.family == puzzle.family && problem.Table() == Table(puzzle)
    requires ConstraintFormula(problem, ArithmeticConstraint(0, e)).Ok?
    requires Complete(puzzle, Decode(puzzle, m))
    ensures S.Satisfies(m, ConstraintFormula(problem, ArithmeticConstraint(0, e)).value)
      <==> ClueHolds(puzzle.family, e, CodesOf(puzzle, Decode(puzzle, m)), Table(puzzle))
  {
    var table, codes, vs := Table(puzzle), CodesOf(puzzle, Decode(puzzle, m)), BooleanVariables(e);
    DecodeCodes(puzzle, m);
    assert forall v :: v in table ==> |table[v]| == |Ids(puzzle, v)|;
    if puzzle.family == LOGIC_GRID_FAMILY {
      Grid.FormulaMeansVerdict(e, table, m);
      Grid.EncodedVariables(e, table);
      Grid.VerdictIsLocal(e, Grid.Codes(Grid.CodesIn(m, table), table), Grid.Codes(Restrict(codes, vs), table));
    } else {
      EquationsSymbolic.EncodedVariablesAreIntegers(e, table);
      var env := IntegersAt(vs, codes, table);
      EquationsSymbolic.FormulaMeansTableVerdict(e, table, m, env);
    }
  }

  lemma {:induction false} DistinctMeans(puzzle: Puzzle, vs: seq<VariableId>, m: S.Model)
    requires puzzle.WellFormed() && InRange(puzzle, m)
    requires forall v :: v in vs ==> v in puzzle.variables
    requires Complete(puzzle, Decode(puzzle, m))
    ensures S.Satisfies(m, S.Distinct(vs)) <==> CodesDiffer(vs, CodesOf(puzzle, Decode(puzzle, m)))
  {
    var codes := CodesOf(puzzle, Decode(puzzle, m));
    DecodeCodes(puzzle, m);
    forall i | 0 <= i < |vs| ensures vs[i] in puzzle.variables && codes[vs[i]] == m.Code(vs[i]) {
      var v := vs[i];
      assert v in vs;
    }
  }

  lemma {:induction false} ConstraintFormulaMeans(puzzle: Puzzle, problem: Problem, c: Constraint, m: S.Model)
    requires puzzle.WellFormed() && InRange(puzzle, m) && Carries(problem, puzzle)
    requires ConstraintFormula(problem, c).Ok?
    requires Complete(puzzle, Decode(puzzle, m))
    ensures S.Satisfies(m, ConstraintFormula(problem, c).value) <==> ConstraintHolds(puzzle, c, Decode(puzzle, m))
  {
    match c
    case DomainConstraint(_, v, allowed) => ChoiceMeans(puzzle, v, allowed, m);
    case AllDifferentConstraint(_, vs) => DistinctMeans(puzzle, vs, m);
    case ArithmeticConstraint(_, e) => ClueFormulaMeans(puzzle, problem, e, m);
  }

  lemma {:induction false} UnionModel(m: S.Model, f: set<S.Formula>, g: set<S.Formula>)
    ensures ModelOf(m, f + g) <==> ModelOf(m, f) && ModelOf(m, g)
  {
  }

  /** The variable's code stands for one of its candidates. */
  ghost predicate CodeFits(puzzle: Puzzle, problem: Problem, v: VariableId, m: S.Model)
    requires puzzle.WellFormed() && v in puzzle.variables && v in problem.variables
  {
    0 <= m.Code(v) < |Ids(puzzle, v)| && Ids(puzzle, v)[m.Code(v)] in problem.variables[v].candidates
  }

  lemma {:induction false} CandidatesMean(puzzle: Puzzle, problem: Problem, m: S.Model)
    requires puzzle.WellFormed() && Carries(problem, puzzle) && WellEncoded(problem)
    ensures ModelOf(m, CandidateFormulas(problem))
      <==> forall v :: v in puzzle.variables ==> CodeFits(puzzle, problem, v, m)
  {
    forall v | v in puzzle.variables
      ensures CandidateFormula(problem, v) in CandidateFormulas(problem)
      ensures S.Satisfies(m, CandidateFormula(problem, v)) <==> CodeFits(puzzle, problem, v, m)
    {
      ChoiceMeans(puzzle, v, Ascending(problem.variables[v].candidates), m);
    }
  }

  lemma {:induction false} ConstraintsMean(puzzle: Puzzle, problem: Problem, m: S.Model)
    requires puzzle.WellFormed() && Carries(problem, puzzle) && InRange(puzzle, m)
    requires ConstraintFormulas(problem).Ok?
    requires Complete(puzzle, Decode(puzzle, m))
    ensures ModelOf(m, ConstraintFormulas(problem).value)
      <==> forall c :: c in problem.constraints ==> ConstraintHolds(puzzle, c, Decode(puzzle, m))
  {
    var formulas := ConstraintFormulas(problem).value;
    forall c | c in problem.constraints
      ensures ConstraintFormula(problem, c).Ok? && ConstraintFormula(problem, c).value in formulas
      ensures S.Satisfies(m, ConstraintFormula(problem, c).value) <==> ConstraintHolds(puzzle, c, Decode(puzzle, m))
    {
      ConstraintFormulaMeans(puzzle, problem, c, m);
    }
  }

  lemma {:induction false} AtomsMean(puzzle: Puzzle, problem: Problem, m: S.Model)
    requires puzzle.WellFormed() && Carries(problem, puzzle) && WellEncoded(problem) && InRange(puzzle, m)
    ensures ModelOf(m, AtomFormulas(problem)) <==> forall atom ::
      atom in problem.asserted || atom in problem.assumptions ==> AtomHolds(atom, Decode(puzzle, m))
  {
    forall atom | atom in problem.asserted || atom in problem.assumptions
      ensures Representable(atom, puzzle)
      ensures AtomFormula(atom, problem) in AtomFormulas(problem)
      ensures S.Satisfies(m, AtomFormula(atom, problem)) <==> AtomHolds(atom, Decode(puzzle, m))
    {
      assert atom in problem.asserted + Elements(problem.assumptions) + {problem.counter};
      AtomFormulaMeans(puzzle, problem, atom, m);
    }
  }

  /** The formulas say exactly what the problem means: whatever division by zero is taken to be,
      their models are the solutions of the source state that agree with the assumptions. */
  lemma {:induction false} ModelsAreSolutions(puzzle: Puzzle, state: PuzzleState, obligation: Obligation,
      problem: Problem, m: S.Model)
    requires puzzle.WellFormed() && Poses(problem, puzzle, state, obligation)
    requires Formulas(problem).Ok?
    ensures ModelOf(m, Formulas(problem).value)
      <==> InRange(puzzle, m) && Base(puzzle, state, obligation, Decode(puzzle, m))
  {
    hide ConstraintHolds, AtomHolds, Base, CandidateFormulas, ConstraintFormulas, AtomFormulas, ModelOf, WellEncoded;
    var constraints := ConstraintFormulas(problem).value;
    UnionModel(m, CandidateFormulas(problem) + constraints, AtomFormulas(problem));
    UnionModel(m, CandidateFormulas(problem), constraints);
    CandidatesMean(puzzle, problem, m);
    if InRange(puzzle, m) {
      var a := Decode(puzzle, m);
      DecodeCodes(puzzle, m);
      ConstraintsMean(puzzle, problem, m);
      AtomsMean(puzzle, problem, m);
      assert forall v :: v in puzzle.variables ==>
        (CodeFits(puzzle, problem, v, m) <==> a[v] in problem.variables[v].candidates);
    } else {
      var v :| v in puzzle.variables && !(0 <= m.Code(v) < |Ids(puzzle, v)|);
      assert !CodeFits(puzzle, problem, v, m);
    }
  }

  /** A solution is the decoding of a model. */
  ghost function ModelFor(puzzle: Puzzle, a: Assignment): S.Model
    requires puzzle.WellFormed() && Complete(puzzle, a)
  {
    S.Model(CodesOf(puzzle, a), n => 0, n => 0)
  }

  lemma {:induction false} ModelForDecodes(puzzle: Puzzle, a: Assignment)
    requires puzzle.WellFormed() && Complete(puzzle, a)
    ensures InRange(puzzle, ModelFor(puzzle, a)) && Decode(puzzle, ModelFor(puzzle, a)) == a
  {
    forall v | v in puzzle.variables
      ensures 0 <= ModelFor(puzzle, a).Code(v) < |Ids(puzzle, v)|
      ensures Ids(puzzle, v)[ModelFor(puzzle, a).Code(v)] == a[v]
    {
    }
  }

  /** With the negated claim added, the models are the counterexamples to the conclusion. */
  lemma {:induction false} CounterModels(puzzle: Puzzle, state: PuzzleState, obligation: Obligation, problem: Problem,
      m: S.Model)
    requires puzzle.WellFormed() && Poses(problem, puzzle, state, obligation)
    requires Formulas(problem).Ok?
    ensures ModelOf(m, Formulas(problem).value + {AtomFormula(problem.counter, problem)}) <==>
      && InRange(puzzle, m) && Base(puzzle, state, obligation, Decode(puzzle, m))
      && !AtomHolds(obligation.conclusion, Decode(puzzle, m))
  {
    hide Formulas, Base, ReadsBack, WellEncoded;
    var counter := AtomFormula(problem.counter, problem);
    ModelsAreSolutions(puzzle, state, obligation, problem, m);
    UnionModel(m, Formulas(problem).value, {counter});
    if InRange(puzzle, m) {
      AtomFormulaMeans(puzzle, problem, problem.counter, m);
      OppositeIsNegation(obligation.conclusion, Decode(puzzle, m));
    }
  }

  /** The base formulas have a model exactly when the source has a solution meeting the assumptions. */
  lemma {:induction false} SatisfiableIffBase(puzzle: Puzzle, state: PuzzleState, obligation: Obligation,
      problem: Problem)
    requires puzzle.WellFormed() && Poses(problem, puzzle, state, obligation)
    requires Formulas(problem).Ok?
    ensures Satisfiable(Formulas(problem).value) <==> exists a :: Base(puzzle, state, obligation, a)
  {
    if Satisfiable(Formulas(problem).value) {
      var m :| ModelOf(m, Formulas(problem).value);
      ModelsAreSolutions(puzzle, state, obligation, problem, m);
    }
    if a :| Base(puzzle, state, obligation, a) {
      ModelForDecodes(puzzle, a);
      ModelsAreSolutions(puzzle, state, obligation, problem, ModelFor(puzzle, a));
    }
  }

  /** With the negated claim, they have a model exactly when the conclusion has a counterexample. */
  lemma {:induction false} SatisfiableIffCounterexample(puzzle: Puzzle, state: PuzzleState, obligation: Obligation,
      problem: Problem)
    requires puzzle.WellFormed() && Poses(problem, puzzle, state, obligation)
    requires Formulas(problem).Ok?
    ensures Satisfiable(Formulas(problem).value + {AtomFormula(problem.counter, problem)})
      <==> exists a :: Base(puzzle, state, obligation, a) && !AtomHolds(obligation.conclusion, a)
  {
    var both := Formulas(problem).value + {AtomFormula(problem.counter, problem)};
    if Satisfiable(both) {
      var m :| ModelOf(m, both);
      CounterModels(puzzle, state, obligation, problem, m);
    }
    if a :| Base(puzzle, state, obligation, a) && !AtomHolds(obligation.conclusion, a) {
      ModelForDecodes(puzzle, a);
      CounterModels(puzzle, state, obligation, problem, ModelFor(puzzle, a));
    }
  }

  /** The symbolic backend is as good as its solver: definite answers are right about the puzzle. */
  lemma {:induction false} VerifyIsTruthful(solver: Solver, puzzle: Puzzle, state: PuzzleState, obligation: Obligation)
    requires puzzle.WellFormed() && Truthful(solver)
    ensures TruthfulAnswer(Verify(solver, puzzle, state, obligation), puzzle, state, obligation)
  {
    var result := Verify(solver, puzzle, state, obligation);
    if result.SatResult? || result.UnsatResult? {
      var problem := Prepare(puzzle, state, obligation).value;
      PreparedPoses(puzzle, state, obligation);
      AnswersMean(solver, problem);
      SatisfiableIffBase(puzzle, state, obligation, problem);
      SatisfiableIffCounterexample(puzzle, state, obligation, problem);
    }
  }

  /** A solver that never gives up confirms every claim that has no counterexample. */
  lemma {:induction false} DecisiveConfirms(solver: Solver, problem: Problem)
    requires WellEncoded(problem) && Truthful(solver) && forall formulas :: solver(formulas) != Unknown
    requires Formulas(problem).Ok? && Satisfiable(Formulas(problem).value)
    requires !Satisfiable(Formulas(problem).value + {AtomFormula(problem.counter, problem)})
    ensures Check(solver, problem) == UnsatResult
  {
    hide Formulas, AtomFormula, Satisfiable, WellEncoded;
  }

  /** The ideal solver: the truthfulness assumed of the symbolic one can be met. */
  ghost function Ideal(formulas: set<S.Formula>): Status {
    if Satisfiable(formulas) then Sat else Unsat
  }

  lemma {:induction false} IdealIsTruthful()
    ensures Truthful(Ideal)
  {
  }

  // ----- which answer is given -----

  /** The obligation is prepared and every active clue can be encoded. */
  ghost predicate Encodable(puzzle: Puzzle, state: PuzzleState, obligation: Obligation)
    requires puzzle.WellFormed()
  {
    Prepare(puzzle, state, obligation).Ok? &&
    (PreparedIsWellEncoded(puzzle, state, obligation);
     ConstraintFormulas(Prepare(puzzle, state, obligation).value).Ok?)
  }

  /** With a solver that never gives up, the answer is decided by the puzzle alone: a source without
      solutions, or one that cannot be encoded, is refused; otherwise a counterexample decides. */
  lemma {:induction false} DecisiveAnswer(solver: Solver, puzzle: Puzzle, state: PuzzleState, obligation: Obligation)
    requires puzzle.WellFormed() && Truthful(solver) && forall formulas :: solver(formulas) != Unknown
    ensures Verify(solver, puzzle, state, obligation) ==
      if !Encodable(puzzle, state, obligation) || !(exists a :: Base(puzzle, state, obligation, a)) then InvalidResult
      else if exists a :: Base(puzzle, state, obligation, a) && !AtomHolds(obligation.conclusion, a) then SatResult
      else UnsatResult
  {
    hide AtomFormula, Satisfiable, WellEncoded, Base, AtomHolds, CandidateFormulas, AtomFormulas, ConstraintFormulas;
    if Encodable(puzzle, state, obligation) {
      var problem := Prepare(puzzle, state, obligation).value;
      PreparedPoses(puzzle, state, obligation);
      SatisfiableIffBase(puzzle, state, obligation, problem);
      SatisfiableIffCounterexample(puzzle, state, obligation, problem);
    }
  }

  /** The answer is open exactly when the solver gave up on the source, or found a solution of the source and
      gave up on the negated claim. */
  lemma {:induction false} OpenAnswer(solver: Solver, puzzle: Puzzle, state: PuzzleState, obligation: Obligation)
    requires puzzle.WellFormed()
    ensures Verify(solver, puzzle, state, obligation).UnknownResult? <==>
      && Encodable(puzzle, state, obligation)
      && (PreparedIsWellEncoded(puzzle, state, obligation);
          var problem := Prepare(puzzle, state, obligation).value;
          var base := Formulas(problem).value;
          || solver(base) == Unknown
          || (solver(base) == Sat && solver(base + {AtomFormula(problem.counter, problem)}) == Unknown))
  {
    hide AtomFormula, WellEncoded, CandidateFormulas, AtomFormulas, ConstraintFormulas;
  }
}

/** Whole solve runs with the Logic Grid rules and the two shipped backends over decisive solvers. */
module LogicGridRuns {
  import opened Prelude
  import opened Domain
  import opened State
  import opened Events
  import opened Reducer
  import opened Solutions
  import opened Encoding
  import opened Coordinator
  import opened Rules
  import opened Engine
  import opened LogicGrid
  import opened LogicGridRules
  import opened LogicGridSoundness
  import opened LogicGridDiscovery
  import opened LogicGridTables
  import EngineTheorems
  import Grid
  import B = SymbolicBackend
  import T = CpSat

  /** A truthful solver that never gives up. */
  ghost predicate Decisive(solver: B.Solver) {
    B.Truthful(solver) && forall formulas :: solver(formulas) != B.Unknown
  }

  lemma {:induction false} IdealIsDecisive()
    ensures Decisive(B.Ideal)
  {
  }

  // ----- a decisive solver confirms what is entailed -----

  /** Every constraint of a valid specification can be encoded. */
  lemma {:induction false} ConstraintIsEncodable(spec: GridSpec, problem: Problem, c: Constraint, b: Assignment)
    requires Valid(spec) && Carries(problem, spec.puzzle) && c in spec.puzzle.constraints
    requires Complete(spec.puzzle, b)
    ensures B.ConstraintFormula(problem, c).Ok?
  {
    hide Grid.Judge, Grid.Encode, Grid.Admitted, Grid.ValidAnchor, ValidCategories, ValidGivens, HasBijection,
      CoversCategory, Grid.Aligned;
    assert ValidConstraint(spec, c);
    if c.AllDifferentConstraint? {
      ListedVariables(spec, c.variables);
      forall v | v in c.variables ensures v in problem.variables {
        var i :| 0 <= i < |c.variables| && c.variables[i] == v;
      }
    } else {
      GridAligned(spec, b);
      Grid.VerdictsAgree(c.expression, CodesOf(spec.puzzle, b), b, Table(spec.puzzle), Anchor(spec),
                         spec.puzzle.variables.Keys, spec.ordered, Numeric(spec));
    }
  }

  lemma {:induction false} EntailedClaimIsConfirmed(solver: B.Solver, spec: GridSpec, state: PuzzleState,
      obligation: Obligation)
    requires Valid(spec) && Decisive(solver) && Prepare(spec.puzzle, state, obligation).Ok?
    requires exists a :: Base(spec.puzzle, state, obligation, a)
    requires forall a :: Base(spec.puzzle, state, obligation, a) ==> AtomHolds(obligation.conclusion, a)
    ensures B.Verify(solver, spec.puzzle, state, obligation) == UnsatResult
  {
    hide ValidCategories, ValidGivens, ValidConstraints, Prepare, B.ConstraintFormula, Base, WellEncoded, Carries,
      B.Satisfiable, B.Check, AtomHolds;
    var problem := Prepare(spec.puzzle, state, obligation).value;
    PreparedPoses(spec.puzzle, state, obligation);
    ProblemIsEncodable(spec, state, obligation);
    B.SatisfiableIffBase(spec.puzzle, state, obligation, problem);
    B.SatisfiableIffCounterexample(spec.puzzle, state, obligation, problem);
    B.DecisiveConfirms(solver, problem);
  }

  lemma {:induction false} ProblemIsEncodable(spec: GridSpec, state: PuzzleState, obligation: Obligation)
    requires Valid(spec) && Prepare(spec.puzzle, state, obligation).Ok?
    requires exists a :: Base(spec.puzzle, state, obligation, a)
    ensures WellEncoded(Prepare(spec.puzzle, state, obligation).value)
    ensures B.Formulas(Prepare(spec.puzzle, state, obligation).value).Ok?
  {
    hide ValidCategories, ValidGivens, ValidConstraints, ValidState, B.ConstraintFormula, Base, WellEncoded, Carries,
      Poses;
    var problem := Prepare(spec.puzzle, state, obligation).value;
    PreparedIsWellEncoded(spec.puzzle, state, obligation);
    PreparedCarries(spec.puzzle, state, obligation);
    var b :| Base(spec.puzzle, state, obligation, b);
    BaseIsComplete(spec.puzzle, state, obligation, b);
    forall c | c in problem.constraints ensures B.ConstraintFormula(problem, c).Ok? {
      ConstraintIsEncodable(spec, problem, c, b);
    }
  }

  lemma {:induction false} BaseIsComplete(puzzle: Puzzle, state: PuzzleState, obligation: Obligation, b: Assignment)
    requires puzzle.WellFormed() && Base(puzzle, state, obligation, b)
    ensures Complete(puzzle, b)
  {
  }

  // ----- states a run passes through -----

  /** A live state of a run from genesis: nothing rejected or contradicted, all constraints active, and
      only representable facts asserted. */
  ghost predicate Grounded(spec: GridSpec, state: PuzzleState) {
    && Live(spec, state) && state.contradictions == [] && state.rejected == {}
    && state.active == (set c | c in spec.puzzle.constraints :: c.id)
    && Stated(spec, state)
  }

  ghost predicate Stated(spec: GridSpec, state: PuzzleState)
    requires spec.puzzle.WellFormed()
  {
    forall atom :: atom in state.asserted ==> Representable(atom, spec.puzzle)
  }

  lemma {:induction false} GroundedPrepares(spec: GridSpec, state: PuzzleState, obligation: Obligation)
    requires Grounded(spec, state)
    requires obligation.revision == spec.puzzle.revision && obligation.source == OfState(state)
    requires forall atom :: atom in obligation.assumptions ==> atom in state.asserted
    requires Asks(obligation.conclusion, state)
    ensures Prepare(spec.puzzle, state, obligation).Ok?
  {
    hide ValidCategories, ValidGivens, HasBijection, CoversCategory, Grid.Admitted, Grid.ValidAnchor, ListsDiffer,
      AllAgree;
    forall c | c in spec.puzzle.constraints ensures !c.OtherConstraint? {
      assert ValidConstraint(spec, c);
    }
    var v, x := obligation.conclusion.variable, obligation.conclusion.value;
    OpenIsRows(spec, state, v);
    GridIds(spec, v);
  }

  /** The genesis state of a valid, solvable specification is grounded. */
  lemma {:induction false} GenesisIsGrounded(spec: GridSpec, stateId: Identifier, branch: Identifier, n: nat)
    requires Valid(spec) && InitialState(spec.puzzle, stateId, branch, n).Ok?
    requires HasSolution(spec.puzzle, InitialState(spec.puzzle, stateId, branch, n).value)
    ensures Grounded(spec, InitialState(spec.puzzle, stateId, branch, n).value)
  {
    hide ValidCategories, ValidConstraints, Grid.ValidAnchor, NarrowAll, ApplyGivens, ListsDiffer, HasSolution, Clash;
    var state := InitialState(spec.puzzle, stateId, branch, n).value;
    forall atom | atom in state.asserted ensures Representable(atom, spec.puzzle) {
      assert AtomAgrees(atom, state, spec.puzzle);
      GridIds(spec, atom.variable);
    }
  }

  // ----- one accepted conclusion -----

  /** The conclusion can be applied: it is open, and every solution of the state meets it. */
  ghost predicate Applicable(spec: GridSpec, state: PuzzleState, conclusion: Atom)
    requires spec.puzzle.WellFormed()
  {
    Asks(conclusion, state) && Entails(spec.puzzle, state, conclusion)
  }

  /** Candidates after the conclusion. */
  function After(candidates: CandidateDomains, conclusion: Atom): CandidateDomains
    requires !conclusion.OtherAtom? && conclusion.variable in candidates
  {
    candidates[conclusion.variable :=
      if conclusion.AssignmentAtom? then {conclusion.value} else candidates[conclusion.variable] - {conclusion.value}]
  }

  lemma {:induction false} ReductionSucceeds(solver: Solver, spec: GridSpec, p: Progress, c: Candidate,
      conclusion: Atom)
    requires Grounded(spec, p.current) && Asks(conclusion, p.current) && solver.puzzle == spec.puzzle
    ensures var r := Reduce(p.current, EventFor(solver, p, c, conclusion));
      && r.Ok? && r.value.candidates == After(p.current.candidates, conclusion)
      && r.value.revision == p.current.revision && r.value.active == p.current.active
      && r.value.rejected == {} && r.value.contradictions == []
      && (forall atom :: atom in r.value.asserted ==>
            || atom in p.current.asserted
            || (atom.ExclusionAtom? && atom.variable == conclusion.variable
                && atom.value in p.current.candidates[atom.variable] && atom.value !in r.value.candidates[atom.variable])
            || (atom.AssignmentAtom? && atom.variable in r.value.candidates && r.value.candidates[atom.variable] == {atom.value}))
  {
    hide Valid, HasSolution, ValidState, Stated;
    assert p.current.revision == spec.puzzle.revision by { RevisionMatches(spec, p.current); }
    var v, x := conclusion.variable, conclusion.value;
    assert Elements([x]) == {x};
    assert |p.current.candidates[v] - {x}| == |p.current.candidates[v]| - 1;
    assert p.current.candidates[v] - {x} != {};
  }

  lemma {:induction false} RevisionMatches(spec: GridSpec, state: PuzzleState)
    requires Grounded(spec, state)
    ensures state.revision == spec.puzzle.revision
  {
  }

  lemma {:induction false} AgreementCarries(spec: GridSpec, state: PuzzleState, next: PuzzleState, v: VariableId,
      atom: Atom)
    requires Shaped(spec) && ValidState(state, spec.puzzle) && atom in state.asserted
    requires v in state.candidates && |state.candidates[v]| > 1
    requires next.candidates.Keys == state.candidates.Keys && next.candidates[v] <= state.candidates[v]
    requires forall w :: w in state.candidates && w != v ==> next.candidates[w] == state.candidates[w]
    ensures AtomAgrees(atom, next, spec.puzzle)
  {
    assert AtomAgrees(atom, state, spec.puzzle);
  }

  /** Asserted values of a state with a solution are the solution's values, so lists cannot clash. */
  lemma {:induction false} SolvableListsDiffer(spec: GridSpec, state: PuzzleState)
    requires Valid(spec) && AllAgree(state.asserted, state, spec.puzzle) && HasSolution(spec.puzzle, state)
    requires state.active == (set c | c in spec.puzzle.constraints :: c.id)
    ensures ListsDiffer(spec.puzzle.constraints, state.asserted)
  {
    hide ValidCategories, ValidGivens, ValidConstraints, Grid.ValidAnchor, ConstraintHolds;
    var a :| Solution(spec.puzzle, state, a);
    var cs := spec.puzzle.constraints;
    forall k | 0 <= k < |cs| && cs[k].AllDifferentConstraint? ensures AssignedDifferently(cs[k].variables, state.asserted) {
      assert cs[k] in cs;
      CategoryDiffers(spec, state, cs[k], a);
      SolutionSeparates(spec, state, cs[k].variables, a);
    }
  }

  lemma {:induction false} SolutionSeparates(spec: GridSpec, state: PuzzleState, vs: seq<VariableId>, a: Assignment)
    requires Shaped(spec) && AllAgree(state.asserted, state, spec.puzzle) && ValuesDiffer(vs, a)
    requires forall i :: 0 <= i < |vs| ==> a[vs[i]] in Possible(state, vs[i])
    ensures AssignedDifferently(vs, state.asserted)
  {
    forall i, x | 0 <= i < |vs| && x in AssertedValues(vs[i], state.asserted) ensures x == a[vs[i]] {
      assert AtomAgrees(AssignmentAtom(vs[i], x), state, spec.puzzle);
    }
  }

  /** Applying an entailed open conclusion to a grounded state succeeds and leaves a grounded state. */
  lemma {:induction false} ApplyingKeepsGrounded(solver: Solver, spec: GridSpec, p: Progress, c: Candidate,
      conclusion: Atom)
    requires Grounded(spec, p.current) && Applicable(spec, p.current, conclusion) && solver.puzzle == spec.puzzle
    ensures Reduce(p.current, EventFor(solver, p, c, conclusion)).Ok?
    ensures Grounded(spec, Reduce(p.current, EventFor(solver, p, c, conclusion)).value)
  {
    hide ValidCategories, ValidGivens, ValidConstraints, Grid.ValidAnchor, Reduce, EventFor, ListsDiffer, HasSolution,
      AtomAgrees, FullDomain;
    var state := p.current;
    var event := EventFor(solver, p, c, conclusion);
    ReductionSucceeds(solver, spec, p, c, conclusion);
    var next := Reduce(state, event).value;
    var v := conclusion.variable;
    EntailedReductionKeepsSolutions(spec.puzzle, state, event);
    TransferSolution(spec.puzzle, state, next);
    forall atom | atom in next.asserted ensures AtomAgrees(atom, next, spec.puzzle) && Representable(atom, spec.puzzle) {
      NextAtomAgrees(spec, state, next, conclusion, atom);
    }
    forall w | w in next.candidates ensures next.candidates[w] <= FullDomain(spec.puzzle, w) {
      assert state.candidates[w] <= FullDomain(spec.puzzle, w);
    }
    SolvableListsDiffer(spec, next);
  }

  lemma {:induction false} TransferSolution(puzzle: Puzzle, state: PuzzleState, next: PuzzleState)
    requires puzzle.WellFormed() && HasSolution(puzzle, state) && SameSolutions(puzzle, state, next)
    ensures HasSolution(puzzle, next)
  {
    var a :| Solution(puzzle, state, a);
    assert Solution(puzzle, next, a);
  }

  lemma {:induction false} NextAtomAgrees(spec: GridSpec, state: PuzzleState, next: PuzzleState, conclusion: Atom,
      atom: Atom)
    requires Grounded(spec, state) && Asks(conclusion, state) && atom in next.asserted
    requires next.candidates == After(state.candidates, conclusion)
    requires
      || atom in state.asserted
      || (atom.ExclusionAtom? && atom.variable == conclusion.variable
          && atom.value in state.candidates[atom.variable] && atom.value !in next.candidates[atom.variable])
      || (atom.AssignmentAtom? && atom.variable in next.candidates && next.candidates[atom.variable] == {atom.value})
    ensures AtomAgrees(atom, next, spec.puzzle) && Representable(atom, spec.puzzle)
  {
    hide ValidCategories, ValidGivens, ValidConstraints, Grid.ValidAnchor, HasSolution, ListsDiffer, AllAgree;
    if atom in state.asserted {
      AgreementCarries(spec, state, next, conclusion.variable, atom);
      assert Stated(spec, state);
    } else {
      assert atom.value in state.candidates[atom.variable];
      GridIds(spec, atom.variable);
      OpenIsRows(spec, state, atom.variable);
    }
  }

  // ----- one turn -----

  /** A solver as the program builds it: the shipped rules, names told apart, and both shipped backends, here
      over solvers that never give up. */
  ghost predicate SetUp(solver: Solver, spec: GridSpec, naming: Naming, symbolic: B.Solver, tables: T.CpSolver) {
    && Valid(spec) && solver.puzzle == spec.puzzle && solver.rules == GridRules(spec, naming)
    && (forall source :: Distinguishes(naming, source))
    && Decisive(symbolic) && DecisiveTables(tables)
    && solver.backends == [SymbolicProofBackend(symbolic), TableProofBackend(tables)]
  }

  lemma {:induction false} PairAnswers(symbolic: B.Solver, tables: T.CpSolver, puzzle: Puzzle, state: PuzzleState,
      obligation: Obligation)
    requires puzzle.WellFormed() && B.Verify(symbolic, puzzle, state, obligation) == UnsatResult
    requires T.Verify(tables, puzzle, state, obligation) in {UnsatResult, InvalidResult}
    ensures var backends := [SymbolicProofBackend(symbolic), TableProofBackend(tables)];
      Decide(backends, puzzle, state, obligation).status ==
        if T.Verify(tables, puzzle, state, obligation) == UnsatResult then CrossVerified else Rejected
  {
    hide B.Verify, T.Verify;
    var backends := [SymbolicProofBackend(symbolic), TableProofBackend(tables)];
    var table := T.Verify(tables, puzzle, state, obligation);
    assert Answers(backends, puzzle, state, obligation) == [UnsatResult, table];
    assert table in [UnsatResult, table];
    assert SatResult !in [UnsatResult, table];
  }

  /** Every entailed claim about an open question is cross-verified if all clues can be tabulated, and
      rejected if one cannot. */
  lemma {:induction false} ClaimIsJudged(solver: Solver, spec: GridSpec, naming: Naming, symbolic: B.Solver,
      tables: T.CpSolver, state: PuzzleState, c: Candidate, proposal: Proposal, conclusion: Atom)
    requires SetUp(solver, spec, naming, symbolic, tables) && Grounded(spec, state)
    requires ValidateProposal(spec.puzzle, state, c, proposal) == Ok(conclusion)
    requires Entails(spec.puzzle, state, conclusion)
    ensures Authority(solver, state, proposal, conclusion) ==
      if WithinLimits(spec.puzzle, state.candidates) then CrossVerified else Rejected
    ensures Applicable(spec, state, conclusion)
  {
    hide ValidCategories, ValidGivens, ValidConstraints, Grid.ValidAnchor, ValidState, GridRules, Distinguishes, B.Verify, Decisive,
      Stated, PuzzleState.Structural, Prepare, AtomHolds, T.Verify, DecisiveTables, WithinLimits, Decide;
    var obligation := ObligationFor(solver, proposal, conclusion);
    SingletonOrMoreCandidates(state, conclusion);
    GroundedPrepares(spec, state, obligation);
    AssertedAssumptionsAreFree(spec.puzzle, state, obligation);
    var a :| Solution(spec.puzzle, state, a);
    assert Base(spec.puzzle, state, obligation, a);
    EntailedClaimIsConfirmed(symbolic, spec, state, obligation);
    TablesConfirm(tables, spec, state, obligation);
    PairAnswers(symbolic, tables, spec.puzzle, state, obligation);
  }

  lemma {:induction false} SingletonOrMoreCandidates(state: PuzzleState, conclusion: Atom)
    requires !conclusion.OtherAtom? && conclusion.variable in state.candidates
    requires conclusion.value in state.candidates[conclusion.variable] && |state.candidates[conclusion.variable]| != 1
    ensures Asks(conclusion, state)
  {
    SingletonOrMore(state.candidates[conclusion.variable], conclusion.value);
  }

  /** Every recorded attempt was proved and applied. */
  ghost predicate Unblemished(p: Progress) {
    p.applied == |p.attempts| && forall i :: 0 <= i < |p.attempts| ==> p.attempts[i].status == CrossVerified
  }

  /** The two ways a turn can go: everything is proved and applied, or nothing is. */
  ghost predicate Kept(spec: GridSpec, start: PuzzleState, p: Progress)
    requires spec.puzzle.WellFormed()
  {
    if WithinLimits(spec.puzzle, start.candidates)
    then Grounded(spec, p.current) && WithinLimits(spec.puzzle, p.current.candidates) && Unblemished(p)
    else p.current == start && Grounded(spec, start) && Refused(p)
  }

  /** Nothing was applied and every attempt was rejected. */
  ghost predicate Refused(p: Progress) {
    p.applied == 0 && p.events == [] && forall i :: 0 <= i < |p.attempts| ==> p.attempts[i].status == Rejected
  }

  lemma {:induction false} TurnSettles(solver: Solver, spec: GridSpec, naming: Naming, symbolic: B.Solver,
      tables: T.CpSolver, start: PuzzleState, p: Progress)
    requires SetUp(solver, spec, naming, symbolic, tables) && Kept(spec, start, p)
    ensures TakeTurn(solver, p).Ok?
    ensures var turn := TakeTurn(solver, p).value;
      && Kept(spec, start, turn.progress)
      && (turn.Halt? ==> turn.status == Stalled)
  {
    hide ValidCategories, ValidGivens, ValidConstraints, Grid.ValidAnchor, GridRules, Stated, Discover, Pursue, WithinLimits,
      PuzzleState.Structural, ValidState, FromTechnique, Untried, Unblemished, Refused;
    assert Grounded(spec, p.current);
    DiscoverySucceeds(spec, p.current, naming);
    var selected := Choose(solver, p);
    if selected.value.Some? {
      var c := selected.value.value;
      var t :| FromTechnique(c, t, spec, p.current, naming);
      MarkKeeps(spec, start, p, c);
      PursuitSettlesAll(solver, spec, naming, symbolic, tables, start, Mark(p, c), c, t);
    }
  }

  lemma {:induction false} MarkKeeps(spec: GridSpec, start: PuzzleState, p: Progress, c: Candidate)
    requires spec.puzzle.WellFormed() && Kept(spec, start, p)
    ensures Kept(spec, start, Mark(p, c)) && Mark(p, c).current == p.current
  {
  }

  lemma {:induction false} PursuitSettlesAll(solver: Solver, spec: GridSpec, naming: Naming, symbolic: B.Solver,
      tables: T.CpSolver, start: PuzzleState, p: Progress, c: Candidate, t: Technique)
    requires SetUp(solver, spec, naming, symbolic, tables) && Kept(spec, start, p)
    requires FromTechnique(c, t, spec, p.current, naming)
    ensures Pursue(solver, p, c).Ok?
    ensures var turn := Pursue(solver, p, c).value;
      turn.Advance? && Kept(spec, start, turn.progress)
  {
    hide ValidCategories, ValidGivens, ValidConstraints, Grid.ValidAnchor, GridRules, Stated, Propose, ValidateProposal, WithinLimits,
      PuzzleState.Structural, ValidState, FromTechnique, Resolve, Refused, Unblemished, Shrinks;
    assert Grounded(spec, p.current);
    CandidatesValidate(solver, spec, p.current, naming, c, t);
    var (proposal, conclusion) := Propose(solver, p.current, c).value;
    ValidatedConcludes(solver, p.current, c, proposal, conclusion);
    ClaimIsJudged(solver, spec, naming, symbolic, tables, p.current, c, proposal, conclusion);
    if WithinLimits(spec.puzzle, start.candidates) {
      ApplyingKeepsGrounded(solver, spec, p, c, conclusion);
      ResolutionApplies(solver, spec, p, c, proposal, conclusion);
      ApplyingShrinks(solver, spec, p, c, conclusion);
      LimitsPersist(spec.puzzle, Reduce(p.current, EventFor(solver, p, c, conclusion)).value.candidates, p.current.candidates);
    } else {
      ResolutionRefuses(solver, p, c, proposal, conclusion);
    }
  }

  lemma {:induction false} ApplyingShrinks(solver: Solver, spec: GridSpec, p: Progress, c: Candidate, conclusion: Atom)
    requires Grounded(spec, p.current) && Asks(conclusion, p.current) && solver.puzzle == spec.puzzle
    ensures var r := Reduce(p.current, EventFor(solver, p, c, conclusion));
      r.Ok? && Shrinks(r.value.candidates, p.current.candidates)
  {
    hide Reduce, EventFor, Grounded;
    ReductionSucceeds(solver, spec, p, c, conclusion);
  }

  lemma {:induction false} ResolutionRefuses(solver: Solver, p: Progress, c: Candidate, proposal: Proposal,
      conclusion: Atom)
    requires solver.puzzle.WellFormed() && !conclusion.OtherAtom? && NoDuplicates(proposal.premises)
    requires Authority(solver, p.current, proposal, conclusion) == Rejected && Refused(p)
    ensures Resolve(solver, p, c, proposal, conclusion).Ok?
    ensures var turn := Resolve(solver, p, c, proposal, conclusion).value;
      turn.Advance? && Refused(turn.progress) && turn.progress.current == p.current
  {
    hide Decide, EventFor;
  }

  lemma {:induction false} ValidatedConcludes(solver: Solver, state: PuzzleState, c: Candidate, proposal: Proposal,
      conclusion: Atom)
    requires ValidateProposal(solver.puzzle, state, c, proposal) == Ok(conclusion)
    ensures !conclusion.OtherAtom? && proposal.source == OfState(state)
  {
  }

  lemma {:induction false} ResolutionApplies(solver: Solver, spec: GridSpec, p: Progress, c: Candidate,
      proposal: Proposal, conclusion: Atom)
    requires spec.puzzle.WellFormed() && solver.puzzle == spec.puzzle && !conclusion.OtherAtom?
    requires proposal.source == OfState(p.current)
    requires NoDuplicates(proposal.premises) && Authority(solver, p.current, proposal, conclusion) == CrossVerified
    requires Reduce(p.current, EventFor(solver, p, c, conclusion)).Ok? && Unblemished(p)
    requires ValidState(Reduce(p.current, EventFor(solver, p, c, conclusion)).value, spec.puzzle)
    ensures Resolve(solver, p, c, proposal, conclusion).Ok?
    ensures var turn := Resolve(solver, p, c, proposal, conclusion).value;
      && turn.Advance? && Unblemished(turn.progress)
      && turn.progress.current == Reduce(p.current, EventFor(solver, p, c, conclusion)).value
  {
    hide ValidState, Reduce, Decide;
    var event := EventFor(solver, p, c, conclusion);
    var obligation := ObligationFor(solver, proposal, conclusion);
    var decision := Decide(solver.backends, solver.puzzle, p.current, obligation);
    DecisionNamesObligation(solver, p.current, obligation);
    assert ApplyVerified(p.current, event, obligation, decision) == Reduce(p.current, event);
    var next := Reduce(p.current, event).value;
    assert Evaluate(solver, p.current, proposal, conclusion, event) == Ok(Verdict(CrossVerified, Some(next)));
  }

  lemma {:induction false} DecisionNamesObligation(solver: Solver, state: PuzzleState, obligation: Obligation)
    ensures Decide(solver.backends, solver.puzzle, state, obligation).obligation == obligation.id
  {
  }

  // ----- whole runs -----

  lemma {:induction false} RunSettles(solver: Solver, spec: GridSpec, naming: Naming, symbolic: B.Solver,
      tables: T.CpSolver, start: PuzzleState, p: Progress, maxSteps: int)
    returns (last: Progress)
    requires SetUp(solver, spec, naming, symbolic, tables) && Kept(spec, start, p)
    ensures Run(solver, start, p, maxSteps).Ok?
    ensures Kept(spec, start, last)
    ensures var trace := Run(solver, start, p, maxSteps).value;
      && trace == Finish(start, trace.status, last)
      && (trace.status == Solved ==> last.current.Solved())
      && (trace.status == LimitReached ==> last.applied >= maxSteps)
      && (trace.status == Solved || trace.status == Stalled || trace.status == LimitReached)
    decreases StateSlack(p.current), UntriedCount(solver, p)
  {
    hide SetUp, Grounded, TakeTurn, Unblemished, UntriedCount, Kept;
    KeptIsValid(solver, spec, naming, symbolic, tables, start, p);
    last := p;
    if !p.current.Solved() && p.applied < maxSteps {
      TurnSettles(solver, spec, naming, symbolic, tables, start, p);
      var turn := TakeTurn(solver, p).value;
      last := turn.progress;
      if turn.Advance? {
        TurnMakesProgress(solver, p);
        last := RunSettles(solver, spec, naming, symbolic, tables, start, turn.progress, maxSteps);
      }
    }
  }

  lemma {:induction false} KeptIsValid(solver: Solver, spec: GridSpec, naming: Naming, symbolic: B.Solver,
      tables: T.CpSolver, start: PuzzleState, p: Progress)
    requires SetUp(solver, spec, naming, symbolic, tables) && Kept(spec, start, p)
    ensures solver.puzzle.WellFormed() && ValidState(p.current, solver.puzzle)
  {
    hide WithinLimits, Refused, Unblemished;
  }

  /** A state with a clue over the limit is not solved. */
  lemma {:induction false} SolvedIsWithinLimits(spec: GridSpec, state: PuzzleState)
    requires Grounded(spec, state) && state.Solved()
    ensures WithinLimits(spec.puzzle, state.candidates)
  {
    hide ValidCategories, ValidGivens, Grid.ValidAnchor, Stated, PuzzleState.Structural, HasSolution, Rows;
    forall c | c in spec.puzzle.constraints && c.ArithmeticConstraint? ensures Tabulable(c, state.candidates) {
      assert ValidConstraint(spec, c);
      AdmittedIsSupported(c.expression, spec.puzzle.variables.Keys, spec.ordered, Numeric(spec));
      var vs := Ascending(BooleanVariables(c.expression));
      forall v | v in vs ensures v in state.candidates && |state.candidates[v]| == 1 {
        assert v in spec.puzzle.variables.Keys;
      }
      SettledHasOneRow(state.candidates, vs);
    }
  }

  /** Solving from the genesis of a valid, solvable specification with the shipped rules and backends: if
      every clue fits the table limit at genesis, every attempt is cross-verified and applied, and the run
      ends solved, stalled for want of a rule, or at its step limit; if one does not, everything the rules
      discover at genesis is attempted and rejected, nothing is applied and the run stalls. */
  lemma {:induction false} GridSolveFollowsLimits(solver: Solver, spec: GridSpec, naming: Naming, symbolic: B.Solver,
      tables: T.CpSolver, stateId: Identifier, branch: Identifier, n: nat, maxSteps: int)
    requires SetUp(solver, spec, naming, symbolic, tables) && maxSteps > 0
    requires InitialState(spec.puzzle, stateId, branch, n).Ok?
    requires HasSolution(spec.puzzle, InitialState(spec.puzzle, stateId, branch, n).value)
    ensures Outcome(solver, InitialState(spec.puzzle, stateId, branch, n).value, maxSteps).Ok?
    ensures var initial := InitialState(spec.puzzle, stateId, branch, n).value;
      var trace := Outcome(solver, initial, maxSteps).value;
      && (WithinLimits(spec.puzzle, initial.candidates) ==>
            && (trace.status == Solved || trace.status == Stalled || trace.status == LimitReached)
            && forall i :: 0 <= i < |trace.attempts| ==> trace.attempts[i].status == CrossVerified)
      && (!WithinLimits(spec.puzzle, initial.candidates) ==>
            && trace.status == Stalled && trace.events == []
            && EngineTheorems.TriedAll(solver, initial, trace.attempts)
            && forall i :: 0 <= i < |trace.attempts| ==> trace.attempts[i].status == Rejected)
  {
    hide ValidCategories, ValidGivens, ValidConstraints, Grid.ValidAnchor, InitialState, HasSolution, ValidState, WithinLimits,
      GridRules, Distinguishes, Decisive, DecisiveTables, Run, EngineTheorems.TriedAll;
    var initial := InitialState(spec.puzzle, stateId, branch, n).value;
    GenesisIsGrounded(spec, stateId, branch, n);
    GridRulesRegistered(spec, naming);
    var last := RunSettles(solver, spec, naming, symbolic, tables, initial, Start(solver, initial), maxSteps);
    if initial.Solved() {
      SolvedIsWithinLimits(spec, initial);
    }
    if !WithinLimits(spec.puzzle, initial.candidates) {
      var final := EngineTheorems.StalledTriedAll(solver, initial, maxSteps);
    }
  }
}

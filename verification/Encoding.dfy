/** The finite-domain problem both backends encode, and the guards that fail closed. */
module Encoding {
  import opened Prelude
  import opened Domain
  import opened State
  import opened Events
  import opened Solutions

  /** One claim to refute the negation of, in a named source state. */
  datatype Obligation = Obligation(
    id: Identifier, revision: Identifier, source: Digest, assumptions: seq<Atom>, conclusion: Atom)

  /** The atom that says the opposite about the same variable and value. */
  function Opposite(atom: Atom): Atom {
    match atom
    case AssignmentAtom(v, x) => ExclusionAtom(v, x)
    case ExclusionAtom(v, x) => AssignmentAtom(v, x)
    case OtherAtom(_) => atom
  }

  datatype VariableEncoding = VariableEncoding(
    ids: seq<ValueId>, numbers: seq<Option<Number>>, candidates: set<ValueId>)

  datatype Problem = Problem(
    family: Identifier,
    variables: map<VariableId, VariableEncoding>,
    constraints: seq<Constraint>,
    asserted: set<Atom>,
    assumptions: seq<Atom>,
    counter: Atom)
  {
    function Table(): NumberTable {
      map v | v in variables :: variables[v].numbers
    }
  }

  function ActiveConstraints(cs: seq<Constraint>, active: set<ConstraintId>): (r: seq<Constraint>)
    ensures forall c :: c in r <==> c in cs && c.id in active
  {
    if cs == [] then []
    else
      var rest := ActiveConstraints(cs[1..], active);
      assert cs == [cs[0]] + cs[1..];
      if cs[0].id in active then [cs[0]] + rest else rest
  }

  /** An assignment or exclusion of a declared value of a known variable. */
  predicate Representable(atom: Atom, puzzle: Puzzle)
    requires puzzle.WellFormed()
  {
    !atom.OtherAtom? && atom.variable in puzzle.variables && atom.value in Ids(puzzle, atom.variable)
  }

  function Prepare(puzzle: Puzzle, state: PuzzleState, obligation: Obligation): Result<Problem>
    requires puzzle.WellFormed()
  {
    var counter := Opposite(obligation.conclusion);
    if state.revision != puzzle.revision then Err(Error.Encoding)
    else if obligation.revision != puzzle.revision then Err(Error.Encoding)
    else if obligation.source != OfState(state) then Err(Error.Encoding)
    else if state.contradictions != [] then Err(Error.Encoding)
    else if !ValidState(state, puzzle) then Err(Error.Encoding)
    else if exists atom :: atom in state.asserted && !Representable(atom, puzzle) then Err(Error.Encoding)
    else if exists atom :: atom in obligation.assumptions && !Representable(atom, puzzle) then Err(Error.Encoding)
    else if !Representable(counter, puzzle) then Err(Error.Encoding)
    else if exists c :: c in puzzle.constraints && c.id in state.active && c.OtherConstraint? then Err(Error.Encoding)
    else Ok(Problem(
      puzzle.family,
      map v | v in puzzle.variables ::
        VariableEncoding(Ids(puzzle, v), NumericOf(puzzle.ValuesOf(v)), state.candidates[v]),
      ActiveConstraints(puzzle.constraints, state.active),
      state.asserted, obligation.assumptions, counter))
  }

  /** `a` solves the source state and agrees with the obligation's assumptions. */
  ghost predicate Base(puzzle: Puzzle, state: PuzzleState, obligation: Obligation, a: Assignment)
    requires puzzle.WellFormed()
  {
    Solution(puzzle, state, a) && forall atom :: atom in obligation.assumptions ==> AtomHolds(atom, a)
  }

  /** In a valid state the asserted atoms say nothing the candidates do not already say. */
  lemma {:induction false} AssertedAtomsHold(puzzle: Puzzle, state: PuzzleState, a: Assignment)
    requires puzzle.WellFormed() && ValidState(state, puzzle) && Solution(puzzle, state, a)
    ensures forall atom :: atom in state.asserted && Representable(atom, puzzle) ==> AtomHolds(atom, a)
  {
    forall atom | atom in state.asserted && Representable(atom, puzzle) ensures AtomHolds(atom, a)
    {
      assert AtomAgrees(atom, state, puzzle);
      assert atom.variable in a && a[atom.variable] in state.candidates[atom.variable];
    }
  }

  /** Refuting the opposite of a claim proves it. */
  lemma {:induction false} OppositeIsNegation(atom: Atom, a: Assignment)
    requires !atom.OtherAtom? && atom.variable in a
    ensures AtomHolds(Opposite(atom), a) <==> !AtomHolds(atom, a)
  {
  }

  // ----- the prepared problem -----

  predicate WellEncoded(problem: Problem) {
    && (forall v :: v in problem.variables ==> problem.variables[v].candidates <= Elements(problem.variables[v].ids))
    && (forall atom :: atom in problem.asserted + Elements(problem.assumptions) + {problem.counter} ==>
          && !atom.OtherAtom? && atom.variable in problem.variables
          && atom.value in problem.variables[atom.variable].ids)
  }

  lemma {:induction false} PreparedIsWellEncoded(puzzle: Puzzle, state: PuzzleState, obligation: Obligation)
    requires puzzle.WellFormed() && Prepare(puzzle, state, obligation).Ok?
    ensures WellEncoded(Prepare(puzzle, state, obligation).value)
  {
    var problem := Prepare(puzzle, state, obligation).value;
    forall v | v in problem.variables
      ensures problem.variables[v].candidates <= Elements(problem.variables[v].ids)
    {
      assert state.candidates[v] <= FullDomain(puzzle, v);
    }
    forall atom | atom in problem.asserted + Elements(problem.assumptions) + {problem.counter}
      ensures Representable(atom, puzzle)
    {
    }
  }

  /** The problem carries the puzzle's family, domains and values. */
  ghost predicate Carries(problem: Problem, puzzle: Puzzle)
    requires puzzle.WellFormed()
  {
    && problem.family == puzzle.family && problem.Table() == Table(puzzle)
    && problem.variables.Keys == puzzle.variables.Keys
    && forall v :: v in puzzle.variables ==> problem.variables[v].ids == Ids(puzzle, v)
  }

  /** The problem's parts, read as a statement about `a`. */
  ghost predicate ReadsBack(puzzle: Puzzle, problem: Problem, a: Assignment)
    requires puzzle.WellFormed() && Carries(problem, puzzle) && Complete(puzzle, a)
  {
    && (forall v :: v in puzzle.variables ==> a[v] in problem.variables[v].candidates)
    && (forall c :: c in problem.constraints ==> ConstraintHolds(puzzle, c, a))
    && (forall atom :: atom in problem.asserted || atom in problem.assumptions ==> AtomHolds(atom, a))
  }

  /** `problem` states the source state, the assumptions and the negated claim. */
  ghost predicate Poses(problem: Problem, puzzle: Puzzle, state: PuzzleState, obligation: Obligation)
    requires puzzle.WellFormed()
  {
    && Carries(problem, puzzle) && WellEncoded(problem)
    && problem.counter == Opposite(obligation.conclusion) && Representable(problem.counter, puzzle)
    && forall a :: Complete(puzzle, a) ==>
         (Base(puzzle, state, obligation, a) <==> ReadsBack(puzzle, problem, a))
  }

  lemma {:induction false} PreparedCarries(puzzle: Puzzle, state: PuzzleState, obligation: Obligation)
    requires puzzle.WellFormed() && Prepare(puzzle, state, obligation).Ok?
    ensures Carries(Prepare(puzzle, state, obligation).value, puzzle)
  {
    hide ValidState, Representable;
    assert Prepare(puzzle, state, obligation).value.Table() == Table(puzzle);
  }

  lemma {:induction false} PreparedReadsBack(puzzle: Puzzle, state: PuzzleState, obligation: Obligation, a: Assignment)
    requires puzzle.WellFormed() && Prepare(puzzle, state, obligation).Ok? && Complete(puzzle, a)
    requires Carries(Prepare(puzzle, state, obligation).value, puzzle)
    ensures Base(puzzle, state, obligation, a)
      <==> ReadsBack(puzzle, Prepare(puzzle, state, obligation).value, a)
  {
    hide ConstraintHolds, AtomHolds, Representable, Carries, ActiveConstraints;
    var problem := Prepare(puzzle, state, obligation).value;
    if Solution(puzzle, state, a) {
      AssertedAtomsHold(puzzle, state, a);
    }
  }

  lemma {:induction false} PreparedPoses(puzzle: Puzzle, state: PuzzleState, obligation: Obligation)
    requires puzzle.WellFormed() && Prepare(puzzle, state, obligation).Ok?
    ensures Poses(Prepare(puzzle, state, obligation).value, puzzle, state, obligation)
  {
    hide ReadsBack, Base, ValidState, WellEncoded, Carries;
    PreparedIsWellEncoded(puzzle, state, obligation);
    PreparedCarries(puzzle, state, obligation);
    forall a | Complete(puzzle, a)
      ensures Base(puzzle, state, obligation, a)
        <==> ReadsBack(puzzle, Prepare(puzzle, state, obligation).value, a)
    {
      PreparedReadsBack(puzzle, state, obligation, a);
    }
  }

  // ----- what backends answer -----

  datatype BackendResult = SatResult | UnsatResult | UnknownResult | InvalidResult

  datatype Certificate = Certificate(backend: Identifier, obligation: Identifier, result: BackendResult)

  /** A definite answer tells the truth about the prepared problem, base satisfiability included. */
  ghost predicate TruthfulAnswer(r: BackendResult, puzzle: Puzzle, state: PuzzleState, obligation: Obligation)
    requires puzzle.WellFormed()
  {
    && (r.UnsatResult? ==>
          && Prepare(puzzle, state, obligation).Ok?
          && (exists a :: Base(puzzle, state, obligation, a))
          && forall a :: Base(puzzle, state, obligation, a) ==> AtomHolds(obligation.conclusion, a))
    && (r.SatResult? ==>
          && Prepare(puzzle, state, obligation).Ok?
          && exists a :: Base(puzzle, state, obligation, a) && !AtomHolds(obligation.conclusion, a))
  }

  /** Preparation fails closed: it succeeds exactly for an obligation about this very state of this revision, when
      the state is valid and not contradictory, everything cited can be encoded, and no active constraint is of
      an unknown kind. */
  lemma {:induction false} PreparedExactly(puzzle: Puzzle, state: PuzzleState, obligation: Obligation)
    requires puzzle.WellFormed()
    ensures Prepare(puzzle, state, obligation).Ok? <==>
      && obligation.source == OfState(state) && obligation.revision == puzzle.revision
      && ValidState(state, puzzle) && state.contradictions == []
      && (forall atom :: atom in state.asserted || atom in obligation.assumptions ==> Representable(atom, puzzle))
      && Representable(obligation.conclusion, puzzle)
      && (forall c :: c in puzzle.constraints && c.id in state.active ==> !c.OtherConstraint?)
    ensures Prepare(puzzle, state, obligation).Ok? ==>
      var problem := Prepare(puzzle, state, obligation).value;
      && problem.asserted == state.asserted && problem.assumptions == obligation.assumptions
      && problem.counter == Opposite(obligation.conclusion) && problem.variables.Keys == puzzle.variables.Keys
      && (forall c :: c in problem.constraints <==> c in puzzle.constraints && c.id in state.active)
      && (forall v :: v in puzzle.variables ==>
            && problem.variables[v].ids == Ids(puzzle, v) && problem.variables[v].candidates == state.candidates[v]
            && problem.variables[v].numbers == Table(puzzle)[v])
  {
    hide AllAgree, ListsDiffer;
  }
}

/** The uniqueness proof the guided builder attaches to a compiled Logic Grid puzzle. */
module Builder {
  import opened Prelude
  import opened Domain
  import opened State
  import opened Events
  import opened Reducer
  import opened Solutions
  import opened Engine
  import opened EngineTheorems
  import opened LogicGrid

  /** The verified solve did not finish, its result failed the final check, or the puzzle is proved to
      have the listed solution and no other. */
  datatype Assessment =
    | Unproven(status: Status)
    | FailedCheck
    | Unique(solution: Listing, verifiedSteps: nat)

  predicate AllSettled(puzzle: Puzzle, state: PuzzleState) {
    forall v :: v in puzzle.variables ==> v in state.candidates && |state.candidates[v]| == 1
  }

  /** The one value left for each variable. */
  function ReadOff(puzzle: Puzzle, state: PuzzleState): Assignment
    requires AllSettled(puzzle, state)
  {
    map v | v in puzzle.variables :: TheOnly(state.candidates[v])
  }

  function Proof(solver: Solver, spec: GridSpec, source: PuzzleState, maxSteps: int): Result<Assessment>
    requires Shaped(spec) && solver.puzzle == spec.puzzle
  {
    var trace :- Outcome(solver, source, maxSteps);
    if trace.status != Solved then Ok(Unproven(trace.status))
    else
      var final :- Replay(source, trace.events);
      if !AllSettled(spec.puzzle, final) then Err(InvalidValue)
      else
        var solution := Listed(ReadOff(spec.puzzle, final));
        if CleanListing(spec, solution) && Accepts(spec, ByVariable(solution))
        then Ok(Unique(solution, |trace.events|)) else Ok(FailedCheck)
  }

  /** `_proof`: solve, fold the events, read the solution off, and check it independently. */
  method Prove(solver: Solver, spec: GridSpec, source: PuzzleState, maxSteps: int) returns (r: Result<Assessment>)
    requires Shaped(spec) && solver.puzzle == spec.puzzle
    ensures r == Proof(solver, spec, source, maxSteps)
  {
    hide Outcome, CleanListing, Accepts, Reduce, Anchor;
    var trace := Solve(solver, source, maxSteps);
    if trace.Err? {
      return Err(trace.error);
    }
    if trace.value.status != Solved {
      return Ok(Unproven(trace.value.status));
    }
    var events := trace.value.events;
    var final := source;
    for i := 0 to |events|
      invariant Replay(source, events[..i]) == Ok(final)
    {
      assert events[..i + 1][..i] == events[..i];
      var next := Reduce(final, events[i]);
      if next.Err? {
        ReplayStaysFailed(source, events, i + 1, next.error);
        return Err(next.error);
      }
      final := next.value;
    }
    assert events[..|events|] == events;
    if !AllSettled(spec.puzzle, final) {
      return Err(InvalidValue);
    }
    var solution := Listed(ReadOff(spec.puzzle, final));
    var accepted := CheckSolution(spec, solution);
    return Ok(if accepted then Unique(solution, |events|) else FailedCheck);
  }

  lemma {:induction false} ReplayStaysFailed(state: PuzzleState, events: seq<Event>, i: nat, error: Error)
    requires i <= |events| && EngineTheorems.Replay(state, events[..i]) == Err(error)
    ensures EngineTheorems.Replay(state, events) == Err(error)
    decreases |events| - i
  {
    hide Reduce;
    if i < |events| {
      assert events[..i + 1][..i] == events[..i];
      ReplayStaysFailed(state, events, i + 1, error);
    } else {
      assert events[..i] == events;
    }
  }

  /** A solved valid state reads off as its final assignment, in a clean listing. */
  lemma {:induction false} ReadOffIsFinal(spec: GridSpec, state: PuzzleState)
    requires Shaped(spec) && ValidState(state, spec.puzzle) && state.Solved()
    ensures AllSettled(spec.puzzle, state) && ReadOff(spec.puzzle, state) == FinalAssignment(state)
    ensures ByVariable(Listed(FinalAssignment(state))) == FinalAssignment(state)
    ensures CleanListing(spec, Listed(FinalAssignment(state)))
  {
    hide Listed, ByVariable;
    var a := FinalAssignment(state);
    ListedReadsBack(a);
    ListedEntries(a);
    forall v | v in a ensures v in spec.puzzle.variables && a[v] in ValueIds(Anchor(spec)) {
      GridIds(spec, v);
      assert state.candidates[v] <= FullDomain(spec.puzzle, v);
      assert a[v] in state.candidates[v];
    }
  }

  /** Everything the claim of a finished solve rests on: the final state, what it spells out, and that no
      other assignment solves the puzzle. */
  lemma {:induction false} SolvedFinal(solver: Solver, spec: GridSpec, source: PuzzleState,
      maxSteps: int) returns (final: PuzzleState)
    requires Shaped(spec) && solver.puzzle == spec.puzzle && TrustedBackends(solver)
    requires Outcome(solver, source, maxSteps).Ok? && Outcome(solver, source, maxSteps).value.status == Solved
    ensures Replay(source, Outcome(solver, source, maxSteps).value.events) == Ok(final)
    ensures final.Solved() && ValidState(final, spec.puzzle)
    ensures forall a :: Solution(spec.puzzle, source, a) ==> a == FinalAssignment(final)
    ensures Outcome(solver, source, maxSteps).value.events != [] ==> Solution(spec.puzzle, source, FinalAssignment(final))
  {
    hide Outcome, Solution, ValidState;
    final := OutcomeProves(solver, source, maxSteps);
    forall a | Solution(spec.puzzle, source, a) ensures a == FinalAssignment(final) {
      SolvedLeavesOne(spec.puzzle, final, a);
    }
    if Outcome(solver, source, maxSteps).value.events != [] {
      var found :| Solution(spec.puzzle, final, found);
      assert Solution(spec.puzzle, source, found);
    }
  }

  /** The uniqueness claim, for the genesis of a valid specification and trusted backends: a solved trace is
      certified exactly when the puzzle has a solution, the listed assignment is then the only one meeting
      every constraint and given, and a failed check means that no step was taken and no solution exists. */
  lemma {:induction false} ProofIsRight(solver: Solver, spec: GridSpec, source: PuzzleState, maxSteps: int,
                     stateId: Identifier, branch: Identifier, n: nat)
    requires Shaped(spec) && Valid(spec) && solver.puzzle == spec.puzzle && TrustedBackends(solver)
    requires InitialState(spec.puzzle, stateId, branch, n) == Ok(source)
    requires Outcome(solver, source, maxSteps).Ok? && Outcome(solver, source, maxSteps).value.status == Solved
    ensures Proof(solver, spec, source, maxSteps).Ok?
    ensures var r := Proof(solver, spec, source, maxSteps).value;
      && (r.Unique? || r == FailedCheck)
      && (r.Unique? <==> HasSolution(spec.puzzle, source))
      && (r.Unique? ==> forall a :: Solution(spec.puzzle, source, a) <==> a == ByVariable(r.solution))
      && (r == FailedCheck ==> Outcome(solver, source, maxSteps).value.events == [])
  {
    hide Outcome, Solution, ValidState, Valid, InitialState, CleanListing, Accepts, PuzzleState.Solved, Listed,
      ByVariable, FinalAssignment;
    var final := SolvedFinal(solver, spec, source, maxSteps);
    ReadOffIsFinal(spec, final);
    var a := FinalAssignment(final);
    CheckerAcceptsSolutions(spec, stateId, branch, n, a);
    if HasSolution(spec.puzzle, source) {
      var b :| Solution(spec.puzzle, source, b);
      assert b == a;
    }
  }

  /** What an assessment says about the run, whatever the backends: an unfinished run is unproven under its status;
      a finished one is unique exactly when the checker accepts what its final state spells out, listed with the
      number of its events. */
  lemma {:induction false} ProofTable(solver: Solver, spec: GridSpec, source: PuzzleState, maxSteps: int)
    requires Shaped(spec) && solver.puzzle == spec.puzzle && Outcome(solver, source, maxSteps).Ok?
    ensures var trace := Outcome(solver, source, maxSteps).value;
      var proof := Proof(solver, spec, source, maxSteps);
      && (proof.Ok? && proof.value.Unproven? ==> trace.status != Solved && proof.value.status == trace.status)
      && (trace.status != Solved ==> proof == Ok(Unproven(trace.status)))
      && (trace.status == Solved && Replay(source, trace.events).Err? ==> proof == Err(Replay(source, trace.events).error))
      && (trace.status == Solved && Replay(source, trace.events).Ok? ==>
            (proof == Err(InvalidValue) <==> !AllSettled(spec.puzzle, Replay(source, trace.events).value)))
      && (proof.Ok? && !proof.value.Unproven? ==>
            && trace.status == Solved && Replay(source, trace.events).Ok?
            && var final := Replay(source, trace.events).value;
               && AllSettled(spec.puzzle, final)
               && (proof.value.Unique? <==> Accepts(spec, ReadOff(spec.puzzle, final)))
               && (proof.value.Unique? ==>
                     && proof.value.verifiedSteps == |trace.events|
                     && ByVariable(proof.value.solution) == ReadOff(spec.puzzle, final)
                     && CleanListing(spec, proof.value.solution)))
  {
    assert spec.puzzle.WellFormed();
    hide Outcome, Accepts, Anchor, Listed, ByVariable, Shaped;
    var trace := Outcome(solver, source, maxSteps).value;
    if trace.status == Solved && Replay(source, trace.events).Ok? {
      var final := Replay(source, trace.events).value;
      if AllSettled(spec.puzzle, final) {
        var a := ReadOff(spec.puzzle, final);
        ListedReadsBack(a);
        if Accepts(spec, a) {
          AcceptedIsClean(spec, a);
        }
      }
    }
  }

  lemma {:induction false} AcceptedIsClean(spec: GridSpec, a: Assignment)
    requires Shaped(spec) && Accepts(spec, a)
    ensures CleanListing(spec, Listed(a))
  {
    hide Anchor;
    ListedEntries(a);
  }
}

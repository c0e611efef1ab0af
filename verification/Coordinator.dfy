/** Cross-backend decisions and the only door through which a verified event changes a state. */
module Coordinator {
  import opened Prelude
  import opened Domain
  import opened State
  import opened Events
  import opened Reducer
  import opened Solutions
  import opened Encoding
  import SymbolicBackend
  import CpSat

  /** A proof backend is a named function of the puzzle, the source state and the obligation. */
  datatype Backend = Backend(id: Identifier, verify: (Puzzle, PuzzleState, Obligation) -> BackendResult)

  /** Its definite answers are right. */
  ghost predicate Trusted(backend: Backend) {
    forall puzzle: Puzzle, state, obligation | puzzle.WellFormed() ::
      TruthfulAnswer(backend.verify(puzzle, state, obligation), puzzle, state, obligation)
  }

  function SymbolicProofBackend(solver: SymbolicBackend.Solver): Backend {
    Backend(1, (puzzle: Puzzle, state, obligation) =>
      if puzzle.WellFormed() then SymbolicBackend.Verify(solver, puzzle, state, obligation) else InvalidResult)
  }

  function TableProofBackend(solver: CpSat.CpSolver): Backend {
    Backend(2, (puzzle: Puzzle, state, obligation) =>
      if puzzle.WellFormed() then CpSat.Verify(solver, puzzle, state, obligation) else InvalidResult)
  }

  /** Both shipped backends can be trusted as far as their solvers can. */
  lemma {:induction false} ShippedBackendsAreTrusted(symbolic: SymbolicBackend.Solver, tables: CpSat.CpSolver)
    requires SymbolicBackend.Truthful(symbolic) && CpSat.Truthful(tables)
    ensures Trusted(SymbolicProofBackend(symbolic)) && Trusted(TableProofBackend(tables))
  {
    forall puzzle: Puzzle, state, obligation | puzzle.WellFormed()
      ensures TruthfulAnswer(SymbolicProofBackend(symbolic).verify(puzzle, state, obligation), puzzle, state, obligation)
      ensures TruthfulAnswer(TableProofBackend(tables).verify(puzzle, state, obligation), puzzle, state, obligation)
    {
      SymbolicBackend.VerifyIsTruthful(symbolic, puzzle, state, obligation);
      CpSat.VerifyIsTruthful(tables, puzzle, state, obligation);
    }
  }

  // ----- decisions -----

  datatype DecisionStatus = BackendVerified | CrossVerified | Rejected | Inconclusive | Quarantined {
    predicate Accepted() {
      BackendVerified? || CrossVerified?
    }
  }

  datatype Decision = Decision(obligation: Identifier, status: DecisionStatus, certificates: seq<Certificate>)

  function Classify(results: seq<BackendResult>): DecisionStatus {
    if SatResult in results && UnsatResult in results then Quarantined
    else if InvalidResult in results then Rejected
    else if UnknownResult in results then Inconclusive
    else if results != [] && forall r :: r in results ==> r == UnsatResult then
      if |results| == 1 then BackendVerified else CrossVerified
    else Rejected
  }

  function Answers(backends: seq<Backend>, puzzle: Puzzle, state: PuzzleState, obligation: Obligation)
    : (r: seq<BackendResult>)
    ensures |r| == |backends|
    ensures forall i :: 0 <= i < |backends| ==> r[i] == backends[i].verify(puzzle, state, obligation)
  {
    seq(|backends|, i requires 0 <= i < |backends| => backends[i].verify(puzzle, state, obligation))
  }

  function Certificates(backends: seq<Backend>, results: seq<BackendResult>, obligation: Identifier): seq<Certificate>
    requires |backends| == |results|
  {
    seq(|backends|, i requires 0 <= i < |backends| => Certificate(backends[i].id, obligation, results[i]))
  }

  function Decide(backends: seq<Backend>, puzzle: Puzzle, state: PuzzleState, obligation: Obligation): Decision {
    var results := Answers(backends, puzzle, state, obligation);
    Decision(obligation.id, Classify(results), Certificates(backends, results, obligation.id))
  }

  /** Some backend answers `r`. */
  ghost predicate SomeAnswers(backends: seq<Backend>, puzzle: Puzzle, state: PuzzleState, obligation: Obligation,
      r: BackendResult) {
    exists i :: 0 <= i < |backends| && backends[i].verify(puzzle, state, obligation) == r
  }

  ghost predicate AllAnswer(backends: seq<Backend>, puzzle: Puzzle, state: PuzzleState, obligation: Obligation,
      r: BackendResult) {
    forall i :: 0 <= i < |backends| ==> backends[i].verify(puzzle, state, obligation) == r
  }

  /** The decision table over what the backends themselves answer, with the certificates that record it: a
      contradiction quarantines, then one refusal rejects, then one lack of an answer leaves it open, and only
      unanimous refutation of the negated claim accepts it. */
  lemma {:induction false} DecisionTable(backends: seq<Backend>, puzzle: Puzzle, state: PuzzleState,
      obligation: Obligation)
    ensures var d := Decide(backends, puzzle, state, obligation);
      var sat := SomeAnswers(backends, puzzle, state, obligation, SatResult);
      var unsat := SomeAnswers(backends, puzzle, state, obligation, UnsatResult);
      var invalid := SomeAnswers(backends, puzzle, state, obligation, InvalidResult);
      var unknown := SomeAnswers(backends, puzzle, state, obligation, UnknownResult);
      && (d.status.Quarantined? <==> sat && unsat)
      && (d.status.Inconclusive? <==> unknown && !invalid && !(sat && unsat))
      && (d.status.Accepted() <==> backends != [] && AllAnswer(backends, puzzle, state, obligation, UnsatResult))
      && (d.status.CrossVerified? <==> d.status.Accepted() && |backends| >= 2)
      && (d.status.Rejected? <==>
            !(sat && unsat) && (invalid || (!unknown && (backends == [] || sat))))
      && d.obligation == obligation.id && |d.certificates| == |backends|
      && forall i :: 0 <= i < |backends| ==>
           d.certificates[i] == Certificate(backends[i].id, obligation.id, backends[i].verify(puzzle, state, obligation))
  {
    var results := Answers(backends, puzzle, state, obligation);
    forall r ensures r in results <==> SomeAnswers(backends, puzzle, state, obligation, r) {
      if r in results {
        var i :| 0 <= i < |results| && results[i] == r;
      }
      if i :| 0 <= i < |backends| && backends[i].verify(puzzle, state, obligation) == r {
        assert results[i] == r;
      }
    }
    if backends != [] {
      assert results[0] in results;
    }
    if forall r :: r in results ==> r == UnsatResult {
      forall i | 0 <= i < |backends| ensures backends[i].verify(puzzle, state, obligation) == UnsatResult {
        assert results[i] in results;
      }
    }
  }

  /** Trusted backends never contradict each other, so nothing is quarantined; and a claim they accept
      holds in every solution agreeing with the assumptions, of which there is at least one. */
  lemma {:induction false} DecisionIsSound(backends: seq<Backend>, puzzle: Puzzle, state: PuzzleState,
      obligation: Obligation)
    requires puzzle.WellFormed() && forall b :: b in backends ==> Trusted(b)
    ensures var status := Decide(backends, puzzle, state, obligation).status;
      && status != Quarantined
      && (status.Accepted() ==>
            && Prepare(puzzle, state, obligation).Ok?
            && (exists a :: Base(puzzle, state, obligation, a))
            && forall a :: Base(puzzle, state, obligation, a) ==> AtomHolds(obligation.conclusion, a))
  {
    var results := Answers(backends, puzzle, state, obligation);
    forall i | 0 <= i < |results| ensures TruthfulAnswer(results[i], puzzle, state, obligation) {
      assert backends[i] in backends && Trusted(backends[i]);
    }
    if Classify(results).Accepted() {
      var first := results[0];
      assert first in results;
    }
  }

  /** When the assumptions are asserted in the state, the base is just the state's solutions. */
  lemma {:induction false} AssertedAssumptionsAreFree(puzzle: Puzzle, state: PuzzleState, obligation: Obligation)
    requires puzzle.WellFormed() && Prepare(puzzle, state, obligation).Ok?
    requires forall atom :: atom in obligation.assumptions ==> atom in state.asserted
    ensures forall a :: Base(puzzle, state, obligation, a) <==> Solution(puzzle, state, a)
  {
    forall a | Solution(puzzle, state, a) ensures Base(puzzle, state, obligation, a) {
      AssertedAtomsHold(puzzle, state, a);
    }
  }

  // ----- applying a verified event -----

  /** The single conclusion an event states, if it is one the verified boundary handles. */
  function Stated(payload: Payload): Option<Atom> {
    match payload
    case ValueAssigned(v, x, _, _, _) => Some(AssignmentAtom(v, x))
    case CandidatesEliminated(v, values, _, _, _) =>
      if |values| == 1 then Some(ExclusionAtom(v, values[0])) else None
    case _ => None
  }

  /** `apply_verified_event`: nothing is reduced unless the decision accepted this very conclusion. */
  function ApplyVerified(previous: PuzzleState, event: Event, obligation: Obligation, decision: Decision)
    : (r: Result<PuzzleState>)
    ensures r.Ok? ==> decision.status.Accepted() && decision.obligation == obligation.id
    ensures r.Ok? ==> Stated(event.body.payload) == Some(obligation.conclusion)
    ensures r.Ok? ==> r == Reduce(previous, event)
  {
    if !decision.status.Accepted() then Err(VerificationRejected)
    else if decision.obligation != obligation.id then Err(VerificationRejected)
    else if obligation.source != OfState(previous) then Err(VerificationRejected)
    else if Stated(event.body.payload) != Some(obligation.conclusion) then Err(VerificationRejected)
    else Reduce(previous, event)
  }

  /** An event is applied exactly when it was accepted, in this very state, for this very conclusion, and the
      reducer takes it; nothing that was not accepted gets any other answer than a refusal. */
  lemma {:induction false} AppliedExactly(previous: PuzzleState, event: Event, obligation: Obligation,
      decision: Decision)
    ensures var r := ApplyVerified(previous, event, obligation, decision);
      var admitted := decision.status.Accepted() && decision.obligation == obligation.id
        && obligation.source == OfState(previous) && StatesOnly(event.body.payload, obligation.conclusion);
      && (r.Ok? <==> admitted && Reduce(previous, event).Ok?)
      && (admitted && Reduce(previous, event).Err? ==> r.Err? && r.error != VerificationRejected)
      && (!admitted ==> r == Err(VerificationRejected))
      && (r.Ok? ==> r == Reduce(previous, event))
  {
  }

  /** The event assigns the value, or eliminates this one value, that the conclusion is about. */
  predicate StatesOnly(payload: Payload, conclusion: Atom) {
    || (conclusion.AssignmentAtom? && payload.ValueAssigned?
        && payload.variable == conclusion.variable && payload.value == conclusion.value)
    || (conclusion.ExclusionAtom? && payload.CandidatesEliminated?
        && payload.variable == conclusion.variable && payload.values == [conclusion.value])
  }
}

/** State reduction: what one state-changing event does to a puzzle state. */
module Reducer {
  import opened Prelude
  import opened Domain
  import opened State
  import opened Events
  import opened Solutions

  /** The guards of `_validate_reduction`, in order. */
  function ReductionGuard(previous: PuzzleState, event: Event): Option<Error> {
    var p := event.body.payload;
    if !Verified(event) then Some(StateConflict)
    else if event.body.revision != previous.revision then Some(StateConflict)
    else if event.body.branch != previous.branch then Some(StateConflict)
    else if event.body.sequenceNo <= previous.sequenceNo then Some(StateConflict)
    else if !(p.CandidatesEliminated? || p.ValueAssigned? || p.ContradictionDetected?) then Some(UnsupportedStateEvent)
    else if p.source != OfState(previous) then Some(StateConflict)
    else None
  }

  /** Exclusion atoms for the given values of one variable. */
  function Exclusions(v: VariableId, values: set<ValueId>): set<Atom> {
    set x | x in values :: ExclusionAtom(v, x)
  }

  /** The state a payload leads to, before the structural check. */
  function Reduced(previous: PuzzleState, event: Event): Result<PuzzleState> {
    var next := previous.(sequenceNo := event.body.sequenceNo);
    match event.body.payload
    case CandidatesEliminated(v, values, _, resultState, _) =>
      if v !in previous.candidates || !(Elements(values) <= previous.candidates[v]) then Err(StateConflict)
      else if previous.candidates[v] - Elements(values) == {} then Err(StateConflict)
      else
        var candidates := previous.candidates[v := previous.candidates[v] - Elements(values)];
        Ok(next.(stateId := resultState, candidates := candidates,
                 asserted := previous.asserted + Exclusions(v, Elements(values)) + SingletonAtoms(candidates)))
    case ValueAssigned(v, x, _, resultState, _) =>
      if v !in previous.candidates || x !in previous.candidates[v] then Err(StateConflict)
      else
        var candidates := previous.candidates[v := {x}];
        Ok(next.(stateId := resultState, candidates := candidates,
                 asserted := previous.asserted + {AssignmentAtom(v, x)}
                   + Exclusions(v, previous.candidates[v] - {x}) + SingletonAtoms(candidates)))
    case ContradictionDetected(id, _, resultState) =>
      if id in previous.contradictions then Err(StateConflict)
      else Ok(next.(stateId := resultState, contradictions := previous.contradictions + [id],
                    asserted := previous.asserted + SingletonAtoms(previous.candidates)))
    case _ => Err(UnsupportedStateEvent)
  }

  function Reduce(previous: PuzzleState, event: Event): (r: Result<PuzzleState>)
    ensures r.Ok? ==> r.value.sequenceNo == event.body.sequenceNo && r.value.Structural()
    ensures r.Ok? ==> r.value.active == previous.active && r.value.branch == previous.branch
    ensures r.Ok? && !event.body.payload.ContradictionDetected? ==> r.value.contradictions == previous.contradictions
  {
    var guard := ReductionGuard(previous, event);
    if guard.Some? then Err(guard.value)
    else
      var next :- Reduced(previous, event);
      BuildState(next)
  }

  /** `reduce_state`: copies the containers, updates them in place, then rebuilds the state. */
  method ReduceState(previous: PuzzleState, event: Event) returns (r: Result<PuzzleState>)
    ensures r == Reduce(previous, event)
  {
    var guard := ReductionGuard(previous, event);
    if guard.Some? {
      return Err(guard.value);
    }
    var candidates := previous.candidates;
    var asserted := previous.asserted;
    var contradictions := previous.contradictions;
    var resultState := previous.stateId;
    match event.body.payload {
      case CandidatesEliminated(v, values, _, result, _) =>
        if v !in candidates || !(Elements(values) <= candidates[v]) {
          return Err(StateConflict);
        }
        var remaining := candidates[v] - Elements(values);
        if remaining == {} {
          return Err(StateConflict);
        }
        candidates := candidates[v := remaining];
        asserted := asserted + Exclusions(v, Elements(values));
        resultState := result;
      case ValueAssigned(v, x, _, result, _) =>
        if v !in candidates || x !in candidates[v] {
          return Err(StateConflict);
        }
        asserted := asserted + {AssignmentAtom(v, x)} + Exclusions(v, candidates[v] - {x});
        candidates := candidates[v := {x}];
        resultState := result;
      case ContradictionDetected(id, _, result) =>
        if id in contradictions {
          return Err(StateConflict);
        }
        contradictions := contradictions + [id];
        resultState := result;
    }
    asserted := AddSingletons(candidates, asserted);
    r := BuildState(PuzzleState(
      resultState, previous.revision, event.body.sequenceNo, previous.branch, candidates, asserted,
      previous.rejected, previous.active, contradictions));
  }

  /** The claim a reduction makes: each eliminated value is impossible, the assigned one is certain. */
  function Claims(payload: Payload): set<Atom> {
    match payload
    case CandidatesEliminated(v, values, _, _, _) => Exclusions(v, Elements(values))
    case ValueAssigned(v, x, _, _, _) => {AssignmentAtom(v, x)}
    case _ => {}
  }

  /** A reduction keeps exactly the solutions that agree with its claim. */
  lemma {:induction false} ReductionMeans(puzzle: Puzzle, previous: PuzzleState, event: Event, a: Assignment)
    requires puzzle.WellFormed() && Reduce(previous, event).Ok?
    requires previous.candidates.Keys == puzzle.variables.Keys
    ensures Solution(puzzle, Reduce(previous, event).value, a) <==>
      Solution(puzzle, previous, a) && forall atom :: atom in Claims(event.body.payload) ==> AtomHolds(atom, a)
  {
    hide ConstraintHolds, AtomHolds, SingletonAtoms, ReductionGuard;
    var next := Reduce(previous, event).value;
    assert next.active == previous.active;
    match event.body.payload {
      case CandidatesEliminated(v, values, _, _, _) =>
        if a.Keys == puzzle.variables.Keys {
          assert v in a;
          EliminationMeans(previous.candidates, v, Elements(values), a);
        }
      case ValueAssigned(v, x, _, _, _) =>
        if a.Keys == puzzle.variables.Keys {
          assert v in a;
          AssigningMeans(previous.candidates, v, x, a);
        }
      case _ =>
    }
  }

  lemma {:induction false} EliminationMeans(candidates: CandidateDomains, v: VariableId, values: set<ValueId>,
      a: Assignment)
    requires v in candidates && a.Keys == candidates.Keys
    ensures Drawn(candidates[v := candidates[v] - values], a) <==>
      Drawn(candidates, a) && forall atom :: atom in Exclusions(v, values) ==> AtomHolds(atom, a)
  {
    var next := candidates[v := candidates[v] - values];
    assert v in a;
    if Drawn(next, a) {
      assert a[v] in next[v];
      forall w | w in a ensures w in candidates && a[w] in candidates[w] {
        assert a[w] in next[w];
      }
    }
    if a[v] in values {
      assert ExclusionAtom(v, a[v]) in Exclusions(v, values);
    }
  }

  lemma {:induction false} AssigningMeans(candidates: CandidateDomains, v: VariableId, x: ValueId, a: Assignment)
    requires v in candidates && x in candidates[v] && a.Keys == candidates.Keys
    ensures Drawn(candidates[v := {x}], a) <==> Drawn(candidates, a) && AtomHolds(AssignmentAtom(v, x), a)
  {
    var next := candidates[v := {x}];
    assert v in a;
    if Drawn(next, a) {
      assert a[v] in next[v];
      forall w | w in a ensures w in candidates && a[w] in candidates[w] {
        assert a[w] in next[w];
      }
    }
  }

  /** Applying a claim every solution already agrees with changes no solution. */
  lemma {:induction false} EntailedReductionKeepsSolutions(puzzle: Puzzle, previous: PuzzleState, event: Event)
    requires puzzle.WellFormed() && Reduce(previous, event).Ok?
    requires previous.candidates.Keys == puzzle.variables.Keys
    requires forall atom :: atom in Claims(event.body.payload) ==> Entails(puzzle, previous, atom)
    ensures SameSolutions(puzzle, previous, Reduce(previous, event).value)
  {
    forall a ensures Solution(puzzle, previous, a) <==> Solution(puzzle, Reduce(previous, event).value, a) {
      ReductionMeans(puzzle, previous, event, a);
    }
  }

  // ----- exactly which events are reduced, and to what -----

  /** What an event takes away from the candidates of `v`. */
  function Removes(previous: PuzzleState, payload: Payload, v: VariableId): set<ValueId> {
    if v !in previous.candidates then {}
    else
      match payload
      case CandidatesEliminated(w, values, _, _, _) => if v == w then Elements(values) else {}
      case ValueAssigned(w, x, _, _, _) => if v == w then previous.candidates[v] - {x} else {}
      case _ => {}
  }

  /** The listed values are candidates, and not all of them. */
  predicate LeavesSome(values: seq<ValueId>, candidates: set<ValueId>) {
    && (forall x :: x in values ==> x in candidates)
    && exists x :: x in candidates && x !in values
  }

  /** The event is sealed, later, about this state of this branch, and claims something open. */
  predicate Reducible(previous: PuzzleState, event: Event) {
    var p := event.body.payload;
    && Verified(event) && event.body.sequenceNo > previous.sequenceNo
    && event.body.revision == previous.revision && event.body.branch == previous.branch
    && match p
       case CandidatesEliminated(v, values, source, _, _) =>
         source == OfState(previous) && v in previous.candidates && LeavesSome(values, previous.candidates[v])
       case ValueAssigned(v, x, source, _, _) =>
         source == OfState(previous) && v in previous.candidates && x in previous.candidates[v]
       case ContradictionDetected(id, source, _) => source == OfState(previous) && id !in previous.contradictions
       case _ => false
  }

  /** What becomes asserted: removed candidates as exclusions, and single ones as assignments. */
  predicate Follows(previous: PuzzleState, payload: Payload, atom: Atom) {
    match atom
    case ExclusionAtom(v, x) => x in Removes(previous, payload, v)
    case AssignmentAtom(v, x) => v in previous.candidates && previous.candidates[v] - Removes(previous, payload, v) == {x}
    case OtherAtom(_) => false
  }

  /** The state after the event, field by field. */
  ghost predicate ReducesTo(previous: PuzzleState, event: Event, next: PuzzleState) {
    var p := event.body.payload;
    && next.revision == previous.revision && next.branch == previous.branch && next.sequenceNo == event.body.sequenceNo
    && next.rejected == previous.rejected && next.active == previous.active
    && (p.CandidatesEliminated? || p.ValueAssigned? || p.ContradictionDetected? ==> next.stateId == p.resultState)
    && next.contradictions == previous.contradictions + (if p.ContradictionDetected? then [p.contradiction] else [])
    && next.candidates.Keys == previous.candidates.Keys
    && (forall v :: v in previous.candidates ==> next.candidates[v] == previous.candidates[v] - Removes(previous, p, v))
    && (forall atom :: atom in next.asserted <==> atom in previous.asserted || Follows(previous, p, atom))
  }

  lemma {:induction false} CandidatesFollow(previous: PuzzleState, event: Event)
    requires Reducible(previous, event) && Reduced(previous, event).Ok?
    ensures var next := Reduced(previous, event).value;
      && next.candidates.Keys == previous.candidates.Keys
      && forall v :: v in previous.candidates ==>
           next.candidates[v] == previous.candidates[v] - Removes(previous, event.body.payload, v)
  {
    var p, next := event.body.payload, Reduced(previous, event).value;
    forall v | v in previous.candidates ensures next.candidates[v] == previous.candidates[v] - Removes(previous, p, v) {
      if p.ValueAssigned? && v == p.variable {
        assert previous.candidates[v] - (previous.candidates[v] - {p.value}) == {p.value};
      }
    }
  }

  lemma {:induction false} SingletonsFollow(candidates: CandidateDomains, atom: Atom)
    ensures atom in SingletonAtoms(candidates) <==>
      atom.AssignmentAtom? && atom.variable in candidates && candidates[atom.variable] == {atom.value}
  {
    if atom.AssignmentAtom? && atom.variable in candidates && |candidates[atom.variable]| == 1 {
      assert candidates[atom.variable] == {TheOnly(candidates[atom.variable])};
    }
  }

  lemma {:induction false} AssertedFollow(previous: PuzzleState, event: Event, atom: Atom)
    requires Reducible(previous, event) && Reduced(previous, event).Ok?
    ensures atom in Reduced(previous, event).value.asserted <==>
      atom in previous.asserted || Follows(previous, event.body.payload, atom)
  {
    hide SingletonAtoms;
    var p := event.body.payload;
    var next := Reduced(previous, event).value;
    CandidatesFollow(previous, event);
    SingletonsFollow(next.candidates, atom);
    if p.ValueAssigned? {
      assert previous.candidates[p.variable] - (previous.candidates[p.variable] - {p.value}) == {p.value};
    }
  }

  /** A state is reduced by exactly the events that claim something open about it and assert nothing it has
      rejected, and then changes by exactly that claim. */
  lemma {:induction false} ReductionExactly(previous: PuzzleState, event: Event)
    requires previous.Structural()
    ensures Reduce(previous, event).Ok? <==>
      && Reducible(previous, event)
      && forall atom :: atom in previous.rejected ==> !Follows(previous, event.body.payload, atom)
    ensures Reduce(previous, event).Ok? ==> ReducesTo(previous, event, Reduce(previous, event).value)
  {
    hide SingletonAtoms, Follows, Removes;
    ReducedExactly(previous, event);
    if Reducible(previous, event) {
      CandidatesFollow(previous, event);
      forall atom ensures atom in Reduced(previous, event).value.asserted <==>
        atom in previous.asserted || Follows(previous, event.body.payload, atom)
      {
        AssertedFollow(previous, event, atom);
      }
      ReducedIsStructural(previous, event);
    }
  }

  lemma {:induction false} ReducedExactly(previous: PuzzleState, event: Event)
    ensures Reducible(previous, event) <==> ReductionGuard(previous, event).None? && Reduced(previous, event).Ok?
  {
    hide SingletonAtoms, LeavesSome;
    var p := event.body.payload;
    if p.CandidatesEliminated? && p.variable in previous.candidates {
      ElementsWithin(p.values, previous.candidates[p.variable]);
    }
  }

  lemma {:induction false} ElementsWithin(values: seq<ValueId>, all: set<ValueId>)
    ensures LeavesSome(values, all) <==> Elements(values) <= all && all - Elements(values) != {}
  {
    if LeavesSome(values, all) {
      forall x | x in Elements(values) ensures x in all {
        assert x in values;
      }
      var x :| x in all && x !in values;
      assert x in all - Elements(values);
    }
    if Elements(values) <= all && all - Elements(values) != {} {
      forall x | x in values ensures x in all {
        assert x in Elements(values);
      }
      var x := AnyOf(all - Elements(values));
      assert x in all && x !in values;
    }
  }

  /** The only structural invariant a reduction can break is that nothing rejected is asserted. */
  lemma {:induction false} ReducedIsStructural(previous: PuzzleState, event: Event)
    requires previous.Structural() && Reducible(previous, event) && Reduced(previous, event).Ok?
    ensures var next := Reduced(previous, event).value;
      && next.Structural() <==> next.asserted !! next.rejected
  {
    hide SingletonAtoms;
    var next := Reduced(previous, event).value;
    forall v | v in next.candidates && |next.candidates[v]| == 1
      ensures AssignmentAtom(v, TheOnly(next.candidates[v])) in next.asserted
    {
      SingletonsFollow(next.candidates, AssignmentAtom(v, TheOnly(next.candidates[v])));
    }
    if !event.body.payload.ContradictionDetected? {
      var v := event.body.payload.variable;
      assert next.candidates[v] != {};
    } else {
      ExtendedDistinct(previous.contradictions, event.body.payload.contradiction);
    }
  }

  lemma {:induction false} ExtendedDistinct<T>(s: seq<T>, x: T)
    requires NoDuplicates(s) && x !in s
    ensures NoDuplicates(s + [x])
  {
  }
}

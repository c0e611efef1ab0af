/** Immutable puzzle states: construction, genesis projection and validation. */
module State {
  import opened Prelude
  import opened Domain

  type CandidateDomains = map<VariableId, set<ValueId>>

  /** One projection of a puzzle branch. The completion flag and the state hash are functions of
      the other fields, so they are not stored. */
  datatype PuzzleState = PuzzleState(
    stateId: Identifier,
    revision: Identifier,
    sequenceNo: nat,
    branch: Identifier,
    candidates: CandidateDomains,
    asserted: set<Atom>,
    rejected: set<Atom>,
    active: set<ConstraintId>,
    contradictions: seq<Identifier>)
  {
    predicate Solved() {
      contradictions == [] && forall v :: v in candidates ==> |candidates[v]| == 1
    }

    /** The invariants every constructed state satisfies. */
    predicate Structural() {
      && candidates != map[]
      && ((forall v :: v in candidates ==> candidates[v] != {}) || contradictions != [])
      && asserted !! rejected
      && NoDuplicates(contradictions)
      && (forall v :: v in candidates && |candidates[v]| == 1
            ==> AssignmentAtom(v, TheOnly(candidates[v])) in asserted)
    }
  }

  /** Construction fails exactly when a structural invariant would not hold. */
  function BuildState(state: PuzzleState): Result<PuzzleState> {
    if state.Structural() then Ok(state) else Err(InvalidValue)
  }

  /** Assignment atoms implied by single-candidate domains. */
  function SingletonAtoms(candidates: CandidateDomains): (atoms: set<Atom>) {
    set v | v in candidates && |candidates[v]| == 1 :: AssignmentAtom(v, TheOnly(candidates[v]))
  }

  lemma {:induction false} SingletonAtomsExtend(candidates: CandidateDomains, v: VariableId, values: set<ValueId>)
    requires v !in candidates
    ensures SingletonAtoms(candidates[v := values]) == SingletonAtoms(candidates)
      + (if |values| == 1 then {AssignmentAtom(v, TheOnly(values))} else {})
  {
    var more := candidates[v := values];
    forall w | w in candidates ensures w in more && more[w] == candidates[w] {
    }
    assert |values| == 1 ==> AssignmentAtom(v, TheOnly(more[v])) in SingletonAtoms(more);
  }

  /** The loop that projects singletons, as the state builders run it. */
  method AddSingletons(candidates: CandidateDomains, asserted: set<Atom>) returns (r: set<Atom>)
    ensures r == asserted + SingletonAtoms(candidates)
  {
    r := asserted;
    var remaining := candidates.Keys;
    while remaining != {}
      invariant remaining <= candidates.Keys
      invariant r == asserted + SingletonAtoms(candidates - remaining)
      decreases |remaining|
    {
      var v := Least(remaining);
      ghost var before := candidates - remaining;
      remaining := remaining - {v};
      assert candidates - remaining == before[v := candidates[v]];
      if |candidates[v]| == 1 {
        r := r + {AssignmentAtom(v, TheOnly(candidates[v]))};
      }
      SingletonAtomsExtend(before, v, candidates[v]);
    }
    assert candidates - {} == candidates;
  }

  // ----- genesis -----

  /** Every value of the variable's domain. */
  function FullDomain(puzzle: Puzzle, v: VariableId): set<ValueId>
    requires v in puzzle.variables && puzzle.variables[v] in puzzle.domains
  {
    Elements(ValueIds(puzzle.ValuesOf(v)))
  }

  function DeclaredDomains(puzzle: Puzzle): CandidateDomains
    requires puzzle.WellFormed()
  {
    map v | v in puzzle.variables :: FullDomain(puzzle, v)
  }

  /** One domain constraint narrows its variable; other kinds leave the candidates alone. */
  function Narrow(candidates: CandidateDomains, c: Constraint): Result<CandidateDomains> {
    match c
    case DomainConstraint(_, v, allowed) =>
      if v in candidates then Ok(candidates[v := candidates[v] * Elements(allowed)])
      else Err(InvalidValue)
    case _ => Ok(candidates)
  }

  function NarrowAll(candidates: CandidateDomains, cs: seq<Constraint>): Result<CandidateDomains> {
    if cs == [] then Ok(candidates)
    else
      var next :- Narrow(candidates, cs[0]);
      NarrowAll(next, cs[1..])
  }

  /** One given restricts its variable, and must still be possible when it is reached. */
  function ApplyGiven(candidates: CandidateDomains, given: Atom): Result<CandidateDomains> {
    match given
    case AssignmentAtom(v, x) =>
      if v in candidates && x in candidates[v] then Ok(candidates[v := {x}]) else Err(InvalidValue)
    case ExclusionAtom(v, x) =>
      if v in candidates && x in candidates[v] then Ok(candidates[v := candidates[v] - {x}])
      else Err(InvalidValue)
    case OtherAtom(_) => Ok(candidates)
  }

  function ApplyGivens(candidates: CandidateDomains, givens: seq<Atom>): Result<CandidateDomains> {
    if givens == [] then Ok(candidates)
    else
      var next :- ApplyGiven(candidates, givens[0]);
      ApplyGivens(next, givens[1..])
  }

  function InitialState(puzzle: Puzzle, stateId: Identifier, branch: Identifier, sequenceNo: nat)
    : Result<PuzzleState>
    requires puzzle.WellFormed()
  {
    var narrowed :- NarrowAll(DeclaredDomains(puzzle), puzzle.constraints);
    var candidates :- ApplyGivens(narrowed, puzzle.givens);
    var state :- BuildState(PuzzleState(
      stateId, puzzle.revision, sequenceNo, branch, candidates,
      Elements(puzzle.givens) + SingletonAtoms(candidates), {},
      set c | c in puzzle.constraints :: c.id, []));
    if ValidState(state, puzzle) then Ok(state) else Err(InvalidValue)
  }

  /** `create_initial_state`: narrow, apply the givens in order, then project singletons. */
  method CreateInitialState(puzzle: Puzzle, stateId: Identifier, branch: Identifier,
                            sequenceNo: nat) returns (r: Result<PuzzleState>)
    requires puzzle.WellFormed()
    ensures r == InitialState(puzzle, stateId, branch, sequenceNo)
  {
    var candidates := DeclaredDomains(puzzle);
    for i := 0 to |puzzle.constraints|
      invariant NarrowAll(DeclaredDomains(puzzle), puzzle.constraints)
        == NarrowAll(candidates, puzzle.constraints[i..])
    {
      var narrowed := Narrow(candidates, puzzle.constraints[i]);
      if narrowed.Err? {
        return Err(InvalidValue);
      }
      candidates := narrowed.value;
    }
    ghost var narrowed := candidates;
    for i := 0 to |puzzle.givens|
      invariant ApplyGivens(narrowed, puzzle.givens) == ApplyGivens(candidates, puzzle.givens[i..])
    {
      var applied := ApplyGiven(candidates, puzzle.givens[i]);
      if applied.Err? {
        return Err(InvalidValue);
      }
      candidates := applied.value;
    }
    var asserted := AddSingletons(candidates, Elements(puzzle.givens));
    var built := BuildState(PuzzleState(
      stateId, puzzle.revision, sequenceNo, branch, candidates, asserted, {},
      set c | c in puzzle.constraints :: c.id, []));
    if built.Err? {
      return built;
    }
    var valid := ValidateState(built.value, puzzle);
    return if valid then built else Err(InvalidValue);
  }

  // ----- validation against the specification -----

  predicate AtomAgrees(atom: Atom, state: PuzzleState, puzzle: Puzzle)
    requires puzzle.WellFormed()
  {
    match atom
    case AssignmentAtom(v, x) =>
      && v in puzzle.variables && x in FullDomain(puzzle, v)
      && v in state.candidates && state.candidates[v] == {x}
    case ExclusionAtom(v, x) => v in state.candidates ==> x !in state.candidates[v]
    case OtherAtom(_) => true
  }

  function AssertedValues(v: VariableId, asserted: set<Atom>): set<ValueId> {
    set atom | atom in asserted && atom.AssignmentAtom? && atom.variable == v :: atom.value
  }

  /** No two listed variables are asserted to have the same value. */
  predicate AssignedDifferently(vs: seq<VariableId>, asserted: set<Atom>) {
    forall i, j :: 0 <= i < j < |vs| ==>
      AssertedValues(vs[i], asserted) !! AssertedValues(vs[j], asserted)
  }

  predicate AllAgree(atoms: set<Atom>, state: PuzzleState, puzzle: Puzzle)
    requires puzzle.WellFormed()
  {
    forall atom :: atom in atoms ==> AtomAgrees(atom, state, puzzle)
  }

  predicate ListsDiffer(cs: seq<Constraint>, asserted: set<Atom>) {
    forall k :: 0 <= k < |cs| && cs[k].AllDifferentConstraint?
      ==> AssignedDifferently(cs[k].variables, asserted)
  }

  /** No violation is reported for `state`. */
  predicate ValidState(state: PuzzleState, puzzle: Puzzle)
    requires puzzle.WellFormed()
  {
    && state.revision == puzzle.revision
    && state.candidates.Keys == puzzle.variables.Keys
    && (forall v :: v in state.candidates ==> state.candidates[v] <= FullDomain(puzzle, v))
    && AllAgree(state.asserted, state, puzzle)
    && state.active <= (set c | c in puzzle.constraints :: c.id)
    && ListsDiffer(puzzle.constraints, state.asserted)
  }

  /** The values recorded for those listed variables that have one, in list order. */
  function Selected(vs: seq<VariableId>, values: map<VariableId, ValueId>): seq<ValueId> {
    if vs == [] then []
    else (if vs[0] in values then [values[vs[0]]] else []) + Selected(vs[1..], values)
  }

  lemma {:induction false} SelectedMember(vs: seq<VariableId>, values: map<VariableId, ValueId>, x: ValueId)
    ensures x in Selected(vs, values) <==> exists i :: 0 <= i < |vs| && vs[i] in values && values[vs[i]] == x
  {
    if vs != [] {
      var rest := vs[1..];
      SelectedMember(rest, values, x);
      if vs[0] in values && values[vs[0]] == x {
      } else if x in Selected(rest, values) {
        var i :| 0 <= i < |rest| && rest[i] in values && values[rest[i]] == x;
        assert vs[i + 1] == rest[i];
      }
    }
  }

  /** Listed positions that have a value have different values. */
  predicate SelectedApart(vs: seq<VariableId>, values: map<VariableId, ValueId>) {
    forall i, j :: 0 <= i < j < |vs| && vs[i] in values && vs[j] in values
      ==> values[vs[i]] != values[vs[j]]
  }

  lemma {:induction false} PrependDistinct<T>(x: T, s: seq<T>)
    ensures NoDuplicates([x] + s) <==> NoDuplicates(s) && x !in s
  {
    var t := [x] + s;
    assert forall i :: 0 <= i < |s| ==> t[i + 1] == s[i];
    if NoDuplicates(t) {
      forall i, j | 0 <= i < j < |s| ensures s[i] != s[j] {
        assert t[i + 1] != t[j + 1];
      }
      forall i | 0 <= i < |s| ensures s[i] != x {
        assert t[0] != t[i + 1];
      }
    }
  }

  lemma {:induction false} ApartCons(v: VariableId, rest: seq<VariableId>, values: map<VariableId, ValueId>)
    ensures SelectedApart([v] + rest, values)
      <==> (SelectedApart(rest, values) && (v in values ==> values[v] !in Selected(rest, values)))
  {
    var vs := [v] + rest;
    assert forall i :: 0 <= i < |rest| ==> vs[i + 1] == rest[i];
    if v in values {
      SelectedMember(rest, values, values[v]);
    }
    if SelectedApart(vs, values) {
      forall i, j | 0 <= i < j < |rest| && rest[i] in values && rest[j] in values
        ensures values[rest[i]] != values[rest[j]]
      {
        assert vs[i + 1] == rest[i] && vs[j + 1] == rest[j];
      }
      forall i | v in values && 0 <= i < |rest| && rest[i] in values ensures values[rest[i]] != values[v] {
        assert vs[0] == v && vs[i + 1] == rest[i];
      }
    } else {
      var i, j :| 0 <= i < j < |vs| && vs[i] in values && vs[j] in values && values[vs[i]] == values[vs[j]];
      assert vs[j] == rest[j - 1];
      assert i > 0 ==> vs[i] == rest[i - 1];
    }
  }

  /** The list of selected values has no repeat exactly when listed positions never clash. */
  lemma {:induction false} SelectedDistinct(vs: seq<VariableId>, values: map<VariableId, ValueId>)
    ensures NoDuplicates(Selected(vs, values)) <==> SelectedApart(vs, values)
  {
    if vs != [] {
      var v, rest := vs[0], vs[1..];
      assert vs == [v] + rest;
      ApartCons(v, rest, values);
      SelectedDistinct(rest, values);
      if v in values {
        PrependDistinct(values[v], Selected(rest, values));
      } else {
        assert Selected(vs, values) == Selected(rest, values);
      }
    }
  }

  /** `values` holds exactly the assignments among `atoms`. */
  ghost predicate Records(values: map<VariableId, ValueId>, atoms: set<Atom>) {
    && (forall v :: v in values ==> AssignmentAtom(v, values[v]) in atoms)
    && (forall atom :: atom in atoms && atom.AssignmentAtom?
          ==> atom.variable in values && values[atom.variable] == atom.value)
  }

  lemma {:induction false} RecordsAgree(vs: seq<VariableId>, values: map<VariableId, ValueId>, atoms: set<Atom>)
    requires Records(values, atoms)
    ensures SelectedApart(vs, values) <==> AssignedDifferently(vs, atoms)
  {
    forall v ensures AssertedValues(v, atoms) == if v in values then {values[v]} else {} {
      if v in values {
        assert AssignmentAtom(v, values[v]) in atoms;
      }
    }
  }

  /** One pass over the asserted atoms, recording the assignments among them. */
  method CollectAssignments(state: PuzzleState, puzzle: Puzzle)
    returns (agree: bool, assignments: map<VariableId, ValueId>)
    requires puzzle.WellFormed()
    ensures agree == AllAgree(state.asserted, state, puzzle)
    ensures agree ==> Records(assignments, state.asserted)
  {
    agree, assignments := true, map[];
    var remaining, seen := state.asserted, {};
    while remaining != {}
      invariant remaining + seen == state.asserted
      invariant agree == AllAgree(seen, state, puzzle)
      invariant agree ==> Records(assignments, seen)
      decreases |remaining|
    {
      var atom :| atom in remaining;
      remaining, seen := remaining - {atom}, seen + {atom};
      if !AtomAgrees(atom, state, puzzle) {
        agree := false;
      } else if atom.AssignmentAtom? && atom.variable !in assignments {
        assignments := assignments[atom.variable := atom.value];
      }
    }
    assert seen == state.asserted;
  }

  /** `validate_state`: collect the asserted assignments, then test every all-different list. */
  method ValidateState(state: PuzzleState, puzzle: Puzzle) returns (valid: bool)
    requires puzzle.WellFormed()
    ensures valid == ValidState(state, puzzle)
  {
    valid := state.revision == puzzle.revision
      && state.candidates.Keys == puzzle.variables.Keys
      && (forall v :: v in state.candidates ==> state.candidates[v] <= FullDomain(puzzle, v))
      && state.active <= (set c | c in puzzle.constraints :: c.id);
    var agree, assignments := CollectAssignments(state, puzzle);
    if !valid || !agree {
      return false;
    }
    for i := 0 to |puzzle.constraints|
      invariant valid == ListsDiffer(puzzle.constraints[..i], state.asserted)
    {
      var c := puzzle.constraints[i];
      assert puzzle.constraints[..i + 1] == puzzle.constraints[..i] + [c];
      if c.AllDifferentConstraint? {
        SelectedDistinct(c.variables, assignments);
        RecordsAgree(c.variables, assignments, state.asserted);
        if !NoDuplicates(Selected(c.variables, assignments)) {
          valid := false;
        }
      }
    }
    assert puzzle.constraints[..|puzzle.constraints|] == puzzle.constraints;
  }
}

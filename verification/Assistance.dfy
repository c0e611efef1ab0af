/** Verified hints for a play session: classifying marks, the state they support, and the next step. */
module Assistance {
  import opened Prelude
  import opened Domain
  import opened State
  import opened Events
  import opened Encoding
  import opened Coordinator
  import opened Rules
  import opened LogicGrid
  import opened LogicGridRules
  import Engine
  import P = Play

  datatype Evaluation = Supported | Contradicted | Disputed | Undecided

  /** The coordinator's backends and the naming of derived identifiers from their content. */
  datatype Service = Service(
    backends: seq<Backend>,
    naming: Naming,
    obligationName: (Identifier, Atom, seq<Atom>) -> Identifier,
    purposeName: Atom -> Identifier,
    stateName: seq<Atom> -> Identifier)

  /** A fresh genesis state, named by its purpose. */
  function FreshState(spec: GridSpec, purpose: Identifier): Result<PuzzleState>
    requires Shaped(spec)
  {
    InitialState(spec.puzzle, purpose, purpose, 0)
  }

  /** `_proof_record`: the coordinator's decision on one claim. */
  function ProofStatus(service: Service, spec: GridSpec, state: PuzzleState, atom: Atom,
      assumptions: seq<Atom>): DecisionStatus {
    Decide(service.backends, spec.puzzle, state, ClaimFor(service, spec, state, atom, assumptions)).status
  }

  function ClaimFor(service: Service, spec: GridSpec, state: PuzzleState, atom: Atom,
      assumptions: seq<Atom>): Obligation {
    Obligation(service.obligationName(state.stateId, atom, assumptions), spec.puzzle.revision, OfState(state), assumptions, atom)
  }

  /** `_classify_atom`: a mark is supported or contradicted when exactly one side is cross-verified. */
  function Evaluate(service: Service, spec: GridSpec, atom: Atom): Result<Evaluation>
    requires Shaped(spec)
  {
    var state :- FreshState(spec, service.purposeName(atom));
    var claim := ProofStatus(service, spec, state, atom, []);
    var opposite := ProofStatus(service, spec, state, Opposite(atom), []);
    if claim.CrossVerified? && !opposite.CrossVerified? then Ok(Supported)
    else if opposite.CrossVerified? && !claim.CrossVerified? then Ok(Contradicted)
    else if claim.Quarantined? || opposite.Quarantined? || (claim.CrossVerified? && opposite.CrossVerified?)
    then Ok(Disputed)
    else Ok(Undecided)
  }

  // ----- the state that supported marks describe -----

  type Outcomes = seq<(Atom, Evaluation)>

  /** Every listed mark except givens and the omitted one, classified in order. */
  function ClassifyAll(service: Service, spec: GridSpec, atoms: seq<Atom>, omit: Option<Atom>): Result<Outcomes>
    requires Shaped(spec)
  {
    if atoms == [] then Ok([])
    else
      var n := |atoms| - 1;
      var earlier :- ClassifyAll(service, spec, atoms[..n], omit);
      if atoms[n] in spec.puzzle.givens || omit == Some(atoms[n]) then Ok(earlier)
      else
        var evaluation :- Evaluate(service, spec, atoms[n]);
        Ok(earlier + [(atoms[n], evaluation)])
  }

  function SupportedBy(outcomes: Outcomes): seq<Atom> {
    if outcomes == [] then []
    else
      var n := |outcomes| - 1;
      var earlier := SupportedBy(outcomes[..n]);
      if outcomes[n].1.Supported? then earlier + [outcomes[n].0] else earlier
  }

  /** One supported mark narrows its variable. */
  function NarrowBy(candidates: CandidateDomains, atom: Atom): Result<CandidateDomains> {
    if atom.OtherAtom? || atom.variable !in candidates then Err(InvalidValue)
    else if atom.AssignmentAtom? then Ok(candidates[atom.variable := {atom.value}])
    else Ok(candidates[atom.variable := candidates[atom.variable] - {atom.value}])
  }

  function NarrowByAll(candidates: CandidateDomains, atoms: seq<Atom>): Result<CandidateDomains> {
    if atoms == [] then Ok(candidates)
    else
      var earlier :- NarrowByAll(candidates, atoms[..|atoms| - 1]);
      NarrowBy(earlier, atoms[|atoms| - 1])
  }

  /** The state described by supported marks; an emptied domain is reported as impossible. */
  function MarkedState(service: Service, spec: GridSpec, genesis: PuzzleState,
      supported: seq<Atom>): Result<PuzzleState> {
    var candidates :- NarrowByAll(genesis.candidates, supported);
    if exists v :: v in candidates && candidates[v] == {} then Err(PlaySession)
    else
      BuildState(PuzzleState(
        service.stateName(supported), spec.puzzle.revision, |supported|, service.stateName(supported), candidates,
        genesis.asserted + Elements(supported) + SingletonAtoms(candidates), {}, genesis.active, []))
  }

  function StateFromMarks(service: Service, spec: GridSpec, atoms: seq<Atom>, omit: Option<Atom>, purpose: Identifier)
    : Result<(PuzzleState, Outcomes)>
    requires Shaped(spec)
  {
    var genesis :- FreshState(spec, purpose);
    var outcomes :- ClassifyAll(service, spec, atoms, omit);
    var state :- MarkedState(service, spec, genesis, SupportedBy(outcomes));
    Ok((state, outcomes))
  }

  /** `_state_from_supported_marks`: classify the marks one by one, then narrow the genesis domains. */
  method ReadMarks(service: Service, spec: GridSpec, atoms: seq<Atom>, omit: Option<Atom>, purpose: Identifier)
    returns (r: Result<(PuzzleState, Outcomes)>)
    requires Shaped(spec)
    ensures r == StateFromMarks(service, spec, atoms, omit, purpose)
  {
    hide Evaluate, FreshState, NarrowBy;
    var genesis := FreshState(spec, purpose);
    if genesis.Err? {
      return Err(genesis.error);
    }
    var outcomes: Outcomes := [];
    var supported: seq<Atom> := [];
    for i := 0 to |atoms|
      invariant ClassifyAll(service, spec, atoms[..i], omit) == Ok(outcomes)
      invariant supported == SupportedBy(outcomes)
    {
      assert atoms[..i + 1][..i] == atoms[..i];
      if atoms[i] !in spec.puzzle.givens && omit != Some(atoms[i]) {
        var evaluation := Evaluate(service, spec, atoms[i]);
        if evaluation.Err? {
          ClassifyStaysFailed(service, spec, atoms, omit, i + 1, evaluation.error);
          return Err(evaluation.error);
        }
        assert (outcomes + [(atoms[i], evaluation.value)])[..|outcomes|] == outcomes;
        outcomes := outcomes + [(atoms[i], evaluation.value)];
        if evaluation.value.Supported? {
          supported := supported + [atoms[i]];
        }
      }
    }
    assert atoms[..|atoms|] == atoms;
    var candidates := genesis.value.candidates;
    for i := 0 to |supported|
      invariant NarrowByAll(genesis.value.candidates, supported[..i]) == Ok(candidates)
    {
      assert supported[..i + 1][..i] == supported[..i];
      var narrowed := NarrowBy(candidates, supported[i]);
      if narrowed.Err? {
        NarrowStaysFailed(genesis.value.candidates, supported, i + 1, narrowed.error);
        return Err(narrowed.error);
      }
      candidates := narrowed.value;
    }
    assert supported[..|supported|] == supported;
    if exists v :: v in candidates && candidates[v] == {} {
      return Err(PlaySession);
    }
    var asserted := AddSingletons(candidates, genesis.value.asserted + Elements(supported));
    var built := BuildState(PuzzleState(
      service.stateName(supported), spec.puzzle.revision, |supported|, service.stateName(supported), candidates, asserted, {},
      genesis.value.active, []));
    return if built.Ok? then Ok((built.value, outcomes)) else Err(built.error);
  }

  lemma {:induction false} ClassifyStaysFailed(service: Service, spec: GridSpec, atoms: seq<Atom>, omit: Option<Atom>,
      i: nat, error: Error)
    requires Shaped(spec) && i <= |atoms| && ClassifyAll(service, spec, atoms[..i], omit) == Err(error)
    ensures ClassifyAll(service, spec, atoms, omit) == Err(error)
    decreases |atoms| - i
  {
    hide Evaluate;
    if i < |atoms| {
      assert atoms[..i + 1][..i] == atoms[..i];
      ClassifyStaysFailed(service, spec, atoms, omit, i + 1, error);
    } else {
      assert atoms[..i] == atoms;
    }
  }

  lemma {:induction false} NarrowStaysFailed(candidates: CandidateDomains, atoms: seq<Atom>, i: nat, error: Error)
    requires i <= |atoms| && NarrowByAll(candidates, atoms[..i]) == Err(error)
    ensures NarrowByAll(candidates, atoms) == Err(error)
    decreases |atoms| - i
  {
    if i < |atoms| {
      assert atoms[..i + 1][..i] == atoms[..i];
      NarrowStaysFailed(candidates, atoms, i + 1, error);
    } else {
      assert atoms[..i] == atoms;
    }
  }

  // ----- hints -----

  datatype Hint =
    | AlreadyComplete
    | Withheld
    | CorrectionRequired(atom: Atom, event: P.EventId)
    | VerificationDisputed
    | MarksUndecided
    | RulesExhausted
    | StepUndecided
    | Available(conclusion: Atom)

  /** The accepted move event that made the mark. */
  predicate MadeBy(e: P.PlayEvent, atom: Atom) {
    && e.body.accepted
    && ((e.body.action.AssignCell? && atom == AssignmentAtom(e.body.action.variable, e.body.action.value))
        || (e.body.action.ExcludeCell? && atom == ExclusionAtom(e.body.action.variable, e.body.action.value)))
  }

  /** The latest event that made the mark. */
  function LastMaking(events: seq<P.PlayEvent>, atom: Atom): (r: Option<P.PlayEvent>)
    ensures r.Some? ==> r.value in events && MadeBy(r.value, atom)
    ensures r.None? ==> forall e :: e in events ==> !MadeBy(e, atom)
  {
    if events == [] then None
    else
      var n := |events| - 1;
      assert events == events[..n] + [events[n]];
      if MadeBy(events[n], atom) then Some(events[n]) else LastMaking(events[..n], atom)
  }

  function FirstContradicted(outcomes: Outcomes): (r: Option<Atom>)
    ensures r.Some? ==> (r.value, Contradicted) in outcomes
    ensures r.None? ==> forall o :: o in outcomes ==> !o.1.Contradicted?
  {
    if outcomes == [] then None
    else
      assert outcomes == [outcomes[0]] + outcomes[1..];
      if outcomes[0].1.Contradicted? then Some(outcomes[0].0) else FirstContradicted(outcomes[1..])
  }

  /** The next step from the state the marks support. */
  function NextStep(service: Service, spec: GridSpec, state: PuzzleState, policy: Policy): Result<Hint>
    requires Shaped(spec)
  {
    var rules := GridRules(spec, service.naming);
    var found :- Discover(spec.puzzle, state, rules);
    var selected := Select(found, policy);
    if selected.None? then Ok(RulesExhausted)
    else
      var rule := Engine.FindRule(rules, selected.value.rule);
      if rule.None? then Err(RuleContract)
      else
        var proposal :- rule.value.apply(selected.value, state);
        if proposal.conclusions == [] || proposal.conclusions[0].OtherAtom? then Err(RuleContract)
        else
          var conclusion := proposal.conclusions[0];
          var status := ProofStatus(service, spec, state, conclusion, proposal.premises);
          if status.Quarantined? then Ok(VerificationDisputed)
          else if !status.CrossVerified? then Ok(StepUndecided)
          else Ok(Available(conclusion))
  }

  /** `request_hint`; `atoms` lists the session's current marks. */
  function RequestHint(service: Service, spec: GridSpec, s: P.Session, atoms: seq<Atom>, policy: Policy,
      purpose: Identifier)
    : Result<Hint>
    requires Shaped(spec)
  {
    if s.view.revision != spec.puzzle.revision then Err(PlaySession)
    else if s.view.status.Completed? then Ok(AlreadyComplete)
    else if s.view.mode.Exam? then Ok(Withheld)
    else
      var (state, outcomes) :- StateFromMarks(service, spec, atoms, None, purpose);
      var contradicted := FirstContradicted(outcomes);
      if contradicted.Some? then
        var event := LastMaking(s.events, contradicted.value);
        if event.None? then Err(PlaySession) else Ok(CorrectionRequired(contradicted.value, event.value.body.id))
      else if exists o :: o in outcomes && o.1.Disputed? then Ok(VerificationDisputed)
      else if exists o :: o in outcomes && o.1.Undecided? then Ok(MarksUndecided)
      else NextStep(service, spec, state, policy)
  }

  /** The sequence lists exactly the marks of the session, in some order. */
  ghost predicate ListsMarks(atoms: seq<Atom>, marks: P.Marks) {
    forall atom :: atom in atoms <==> IsMark(atom, marks)
  }

  predicate IsMark(atom: Atom, marks: P.Marks) {
    match atom
    case AssignmentAtom(v, x) => v in marks.assignments && marks.assignments[v] == x
    case ExclusionAtom(v, x) => (v, x) in marks.exclusions
    case OtherAtom(_) => false
  }
}

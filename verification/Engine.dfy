/** The verified human-rule solve loop. */
module Engine {
  import opened Prelude
  import opened Domain
  import opened State
  import opened Events
  import opened Reducer
  import opened Solutions
  import opened Encoding
  import opened Coordinator
  import opened Rules

  /** Caller-owned envelope data, and the naming of derived identifiers from their content. */
  datatype Context = Context(
    trace: Identifier,
    envelope: Identifier,
    previous: Digest,
    eventName: (Identifier, nat, Digest, Identifier) -> Identifier,
    stateName: (Identifier, nat, Digest, Identifier) -> Identifier,
    obligationName: Proposal -> Identifier)

  datatype Solver = Solver(
    puzzle: Puzzle, rules: seq<Rule>, backends: seq<Backend>, policy: Policy, context: Context)

  datatype Attempt = Attempt(
    candidate: Identifier, source: Digest, rule: RuleReference, premises: seq<Atom>,
    conclusions: seq<Atom>, status: DecisionStatus, event: Option<Identifier>, result: Option<Digest>)

  datatype Status = Solved | Stalled | NotConcluded | InQuarantine | LimitReached

  datatype Trace = Trace(
    status: Status, initial: Digest, final: Digest, attempts: seq<Attempt>, events: seq<Event>)

  /** The variables the loop updates. */
  datatype Progress = Progress(
    current: PuzzleState, previous: Digest, attempts: seq<Attempt>, events: seq<Event>,
    attempted: set<(Digest, Identifier)>, applied: nat)

  // ----- proposals -----

  /** `_validate_proposal`: the proposal restates its candidate and concludes one open question. */
  function ValidateProposal(puzzle: Puzzle, state: PuzzleState, c: Candidate, p: Proposal): Result<Atom> {
    if p.candidate != c.id || p.rule != c.rule then Err(RuleContract)
    else if p.source != OfState(state) then Err(RuleContract)
    else if p.premises != c.premises || p.affected != c.affected || p.supporting != c.supporting then Err(RuleContract)
    else if |p.conclusions| != 1 then Err(RuleContract)
    else if exists atom :: atom in p.premises && atom !in state.asserted then Err(RuleContract)
    else if exists id :: id in p.supporting && id !in state.active then Err(RuleContract)
    else if exists v :: v in p.affected && v !in puzzle.variables then Err(RuleContract)
    else
      var conclusion := p.conclusions[0];
      if conclusion.OtherAtom? then Err(RuleContract)
      else if conclusion.variable !in p.affected then Err(RuleContract)
      else if conclusion.variable !in state.candidates then Err(RuleContract)
      else if conclusion.value !in state.candidates[conclusion.variable] then Err(RuleContract)
      else if |state.candidates[conclusion.variable]| == 1 then Err(RuleContract)
      else Ok(conclusion)
  }

  /** The proof obligation the authority poses for a proposal. */
  function ObligationFor(solver: Solver, p: Proposal, conclusion: Atom): Obligation {
    Obligation(solver.context.obligationName(p), solver.puzzle.revision, p.source, p.premises, conclusion)
  }

  /** The status the backends' decision gives the conclusion. */
  function Authority(solver: Solver, state: PuzzleState, p: Proposal, conclusion: Atom): DecisionStatus {
    Decide(solver.backends, solver.puzzle, state, ObligationFor(solver, p, conclusion)).status
  }

  datatype Verdict = Verdict(status: DecisionStatus, result: Option<PuzzleState>)

  /** `VerifiedRuleAuthority.evaluate`: prove the conclusion, then reduce only if it was accepted. */
  function Evaluate(solver: Solver, state: PuzzleState, p: Proposal, conclusion: Atom, event: Event): Result<Verdict> {
    if conclusion.OtherAtom? || !NoDuplicates(p.premises) then Err(InvalidValue)
    else
      var obligation := ObligationFor(solver, p, conclusion);
      var decision := Decide(solver.backends, solver.puzzle, state, obligation);
      if !decision.status.Accepted() then Ok(Verdict(decision.status, None))
      else
        var next :- ApplyVerified(state, event, obligation, decision);
        Ok(Verdict(decision.status, Some(next)))
  }

  function EventFor(solver: Solver, p: Progress, c: Candidate, conclusion: Atom): (e: Event)
    requires !conclusion.OtherAtom?
    ensures Verified(e) && e.body.sequenceNo == p.current.sequenceNo + 1 && e.body.previous == p.previous
    ensures Claims(e.body.payload) == {conclusion} && !e.body.payload.ContradictionDetected?
  {
    assert Elements([conclusion.value]) == {conclusion.value};
    var source := OfState(p.current);
    var next := p.current.sequenceNo + 1;
    var name := solver.context.stateName(c.id, next, source, solver.context.trace);
    var payload := if conclusion.AssignmentAtom?
      then ValueAssigned(conclusion.variable, conclusion.value, source, name, HumanRule)
      else CandidatesEliminated(conclusion.variable, [conclusion.value], source, name, HumanRule);
    Seal(EventBody(
      solver.context.eventName(c.id, next, source, solver.context.trace),
      solver.context.trace, solver.puzzle.revision, p.current.branch, next,
      solver.context.envelope, p.previous, payload))
  }

  // ----- one turn of the loop -----

  datatype Turn = Halt(status: Status, progress: Progress) | Advance(progress: Progress)

  /** Candidates not yet attempted in the current state, in canonical order. */
  function Untried(candidates: seq<Candidate>, source: Digest,
      attempted: set<(Digest, Identifier)>): (r: seq<Candidate>)
    ensures forall c :: c in r ==> c in candidates && (source, c.id) !in attempted
  {
    if candidates == [] then []
    else
      var rest := Untried(candidates[1..], source, attempted);
      if (source, candidates[0].id) in attempted then rest else [candidates[0]] + rest
  }

  function FindRule(rules: seq<Rule>, reference: RuleReference): Option<Rule> {
    if rules == [] then None
    else if rules[0].reference == reference then Some(rules[0])
    else FindRule(rules[1..], reference)
  }

  function Record(p: Progress, c: Candidate, conclusions: seq<Atom>, status: DecisionStatus,
                  event: Option<Identifier>, result: Option<Digest>): Progress {
    p.(attempts := p.attempts
        + [Attempt(c.id, OfState(p.current), c.rule, c.premises, conclusions, status, event, result)])
  }

  /** Evaluate a validated proposal and fold the outcome into the progress. */
  function Resolve(solver: Solver, p: Progress, c: Candidate, proposal: Proposal, conclusion: Atom): (r: Result<Turn>)
    requires solver.puzzle.WellFormed() && !conclusion.OtherAtom?
    ensures r.Ok? && r.value.progress.applied == p.applied ==>
      r.value.progress.current == p.current && r.value.progress.events == p.events
        && r.value.progress.previous == p.previous
    ensures r.Ok? ==> r.value.progress.attempted == p.attempted
    ensures r.Ok? && r.value.progress.applied != p.applied ==>
      var event, q := EventFor(solver, p, c, conclusion), r.value.progress;
      && r.value.Advance?
      && Authority(solver, p.current, proposal, conclusion).Accepted()
      && Reduce(p.current, event) == Ok(q.current) && ValidState(q.current, solver.puzzle)
      && q.events == p.events + [event] && q.previous == event.hash && q.applied == p.applied + 1
    ensures r.Ok? && r.value.Halt? ==> r.value.progress.applied == p.applied
    ensures r.Ok? && r.value.Halt? && !Authority(solver, p.current, proposal, conclusion).Quarantined?
      ==> r.value.status == NotConcluded
  {
    var event := EventFor(solver, p, c, conclusion);
    var verdict :- Evaluate(solver, p.current, proposal, conclusion, event);
    if verdict.result.None? then
      var recorded := Record(p, c, proposal.conclusions, verdict.status, None, None);
      if verdict.status.Inconclusive? then Ok(Halt(NotConcluded, recorded))
      else if verdict.status.Quarantined? then Ok(Halt(InQuarantine, recorded))
      else Ok(Advance(recorded))
    else
      var next := verdict.result.value;
      if !ValidState(next, solver.puzzle) then Err(RuleContract)
      else
        var recorded := Record(p, c, proposal.conclusions, verdict.status,
                               Some(event.body.eventId), Some(OfState(next)));
        Ok(Advance(recorded.(current := next, previous := event.hash,
                             events := p.events + [event], applied := p.applied + 1)))
  }

  /** The selected candidate, if any is left to try. */
  function Choose(solver: Solver, p: Progress): Result<Option<Candidate>> {
    var discovered :- Discover(solver.puzzle, p.current, solver.rules);
    Ok(Select(Untried(discovered, OfState(p.current), p.attempted), solver.policy))
  }

  function Mark(p: Progress, c: Candidate): Progress {
    p.(attempted := p.attempted + {(OfState(p.current), c.id)})
  }

  /** The rule's proposal for the candidate, and its conclusion if it validates. */
  function Propose(solver: Solver, state: PuzzleState, c: Candidate): (r: Result<(Proposal, Atom)>)
    ensures r.Ok? ==> ValidateProposal(solver.puzzle, state, c, r.value.0) == Ok(r.value.1)
  {
    var rule := FindRule(solver.rules, c.rule);
    if rule.None? then Err(RuleContract)
    else
      var proposal :- rule.value.apply(c, state);
      var conclusion :- ValidateProposal(solver.puzzle, state, c, proposal);
      Ok((proposal, conclusion))
  }

  /** Errors of the rule's own proposal are recorded as rejections; all others end the run. */
  function Pursue(solver: Solver, p: Progress, c: Candidate): Result<Turn>
    requires solver.puzzle.WellFormed()
  {
    var proposed := Propose(solver, p.current, c);
    if proposed.Err? then Ok(Advance(Record(p, c, [], Rejected, None, None)))
    else Resolve(solver, p, c, proposed.value.0, proposed.value.1)
  }

  /** Discover, select, validate and resolve one candidate. */
  function TakeTurn(solver: Solver, p: Progress): Result<Turn>
    requires solver.puzzle.WellFormed()
  {
    var selected :- Choose(solver, p);
    if selected.None? then Ok(Halt(Stalled, p))
    else Pursue(solver, Mark(p, selected.value), selected.value)
  }

  // ----- termination -----

  /** How many candidates remain beyond one per variable. */
  ghost function Slack(vs: set<VariableId>, candidates: CandidateDomains): nat {
    if vs == {} then 0
    else
      var v := Least(vs);
      SlackAt(v, candidates) + Slack(vs - {v}, candidates)
  }

  ghost function SlackAt(v: VariableId, candidates: CandidateDomains): nat {
    if v in candidates && candidates[v] != {} then |candidates[v]| - 1 else 0
  }

  ghost function StateSlack(state: PuzzleState): nat {
    Slack(state.candidates.Keys, state.candidates)
  }

  lemma {:induction false} SlackSplits(vs: set<VariableId>, candidates: CandidateDomains, v: VariableId)
    requires v in vs
    ensures Slack(vs, candidates) == SlackAt(v, candidates) + Slack(vs - {v}, candidates)
  {
    var first := Least(vs);
    if first != v {
      SlackSplits(vs - {first}, candidates, v);
      assert vs - {first} - {v} == vs - {v} - {first};
      var second := Least(vs - {v});
      assert first in vs - {v} && second in vs;
    }
  }

  lemma {:induction false} SlackIsLocal(vs: set<VariableId>, c: CandidateDomains, d: CandidateDomains)
    requires forall v :: v in vs ==> SlackAt(v, c) == SlackAt(v, d)
    ensures Slack(vs, c) == Slack(vs, d)
  {
    if vs != {} {
      SlackIsLocal(vs - {Least(vs)}, c, d);
    }
  }

  /** Shrinking one variable's candidates uses up that much slack. */
  lemma {:induction false} SlackDrops(candidates: CandidateDomains, v: VariableId, fewer: set<ValueId>)
    requires v in candidates && fewer != {} && |fewer| < |candidates[v]|
    ensures var next := candidates[v := fewer];
      Slack(next.Keys, next) + |candidates[v]| - |fewer| == Slack(candidates.Keys, candidates)
  {
    var next := candidates[v := fewer];
    assert next.Keys == candidates.Keys;
    SlackSplits(candidates.Keys, candidates, v);
    SlackSplits(next.Keys, next, v);
    SlackIsLocal(candidates.Keys - {v}, candidates, next);
  }

  /** An accepted event settles something: at least one candidate disappears. */
  lemma {:induction false} AcceptedEventUsesSlack(solver: Solver, p: Progress, c: Candidate, proposal: Proposal,
      conclusion: Atom)
    requires ValidateProposal(solver.puzzle, p.current, c, proposal) == Ok(conclusion)
    requires Reduce(p.current, EventFor(solver, p, c, conclusion)).Ok?
    ensures StateSlack(Reduce(p.current, EventFor(solver, p, c, conclusion)).value) < StateSlack(p.current)
  {
    var v, x := conclusion.variable, conclusion.value;
    var candidates := p.current.candidates;
    var event := EventFor(solver, p, c, conclusion);
    assert |candidates[v]| > 1 by {
      assert x in candidates[v];
    }
    if conclusion.AssignmentAtom? {
      SlackDrops(candidates, v, {x});
    } else {
      assert Elements([x]) == {x};
      assert |candidates[v] - {x}| == |candidates[v]| - 1;
      SlackDrops(candidates, v, candidates[v] - {x});
    }
  }

  lemma {:induction false} MarkingShrinksUntried(candidates: seq<Candidate>, source: Digest,
                                                 attempted: set<(Digest, Identifier)>, c: Candidate)
    requires c in Untried(candidates, source, attempted)
    ensures |Untried(candidates, source, attempted + {(source, c.id)})| < |Untried(candidates, source, attempted)|
  {
    var rest := candidates[1..];
    if c in Untried(rest, source, attempted) {
      MarkingShrinksUntried(rest, source, attempted, c);
    } else {
      assert candidates[0] == c;
      MarkingKeepsAtMost(rest, source, attempted, c);
    }
  }

  lemma {:induction false} MarkingKeepsAtMost(candidates: seq<Candidate>, source: Digest,
                                              attempted: set<(Digest, Identifier)>, c: Candidate)
    ensures |Untried(candidates, source, attempted + {(source, c.id)})| <= |Untried(candidates, source, attempted)|
  {
    if candidates != [] {
      MarkingKeepsAtMost(candidates[1..], source, attempted, c);
    }
  }

  ghost function UntriedCount(solver: Solver, p: Progress): nat {
    var discovered := Discover(solver.puzzle, p.current, solver.rules);
    if discovered.Err? then 0 else |Untried(discovered.value, OfState(p.current), p.attempted)|
  }

  /** Pursuing a candidate leaves the state alone, or settles at least one candidate value. */
  lemma {:induction false} PursuitSettles(solver: Solver, p: Progress, c: Candidate)
    requires solver.puzzle.WellFormed() && Pursue(solver, p, c).Ok?
    ensures var q := Pursue(solver, p, c).value.progress;
      && q.attempted == p.attempted
      && (q.current == p.current
          || (ValidState(q.current, solver.puzzle) && StateSlack(q.current) < StateSlack(p.current)))
  {
    var proposed := Propose(solver, p.current, c);
    var q := Pursue(solver, p, c).value.progress;
    if proposed.Ok? && q.applied != p.applied {
      AcceptedEventUsesSlack(solver, p, c, proposed.value.0, proposed.value.1);
    }
  }

  /** Every turn that goes on either settles a candidate or uses up an untried proposal. */
  lemma {:induction false} TurnMakesProgress(solver: Solver, p: Progress)
    requires solver.puzzle.WellFormed() && ValidState(p.current, solver.puzzle)
    requires TakeTurn(solver, p).Ok? && TakeTurn(solver, p).value.Advance?
    ensures var q := TakeTurn(solver, p).value.progress;
      && ValidState(q.current, solver.puzzle)
      && (StateSlack(q.current) < StateSlack(p.current)
          || (q.current == p.current && UntriedCount(solver, q) < UntriedCount(solver, p)))
  {
    var source := OfState(p.current);
    var discovered := Discover(solver.puzzle, p.current, solver.rules).value;
    var c := Choose(solver, p).value.value;
    PursuitSettles(solver, Mark(p, c), c);
    MarkingShrinksUntried(discovered, source, p.attempted, c);
  }

  // ----- the run -----

  function Finish(initial: PuzzleState, status: Status, p: Progress): Trace {
    Trace(status, OfState(initial), OfState(p.current), p.attempts, p.events)
  }

  function Run(solver: Solver, initial: PuzzleState, p: Progress, maxSteps: int): Result<Trace>
    requires solver.puzzle.WellFormed() && ValidState(p.current, solver.puzzle)
    decreases StateSlack(p.current), UntriedCount(solver, p)
  {
    if p.current.Solved() then Ok(Finish(initial, Solved, p))
    else if p.applied >= maxSteps then Ok(Finish(initial, LimitReached, p))
    else
      var turn :- TakeTurn(solver, p);
      match turn
      case Halt(status, q) => Ok(Finish(initial, status, q))
      case Advance(q) =>
        TurnMakesProgress(solver, p);
        Run(solver, initial, q, maxSteps)
  }

  function Start(solver: Solver, initial: PuzzleState): Progress {
    Progress(initial, solver.context.previous, [], [], {}, 0)
  }

  /** What `solve` returns, as a function of its inputs. */
  function Outcome(solver: Solver, initial: PuzzleState, maxSteps: int): Result<Trace>
    requires solver.puzzle.WellFormed()
  {
    if !UniqueIdentities(solver.rules) then Err(RuleContract)
    else if maxSteps <= 0 then Err(InvalidValue)
    else if !ValidState(initial, solver.puzzle) then Err(RuleContract)
    else Run(solver, initial, Start(solver, initial), maxSteps)
  }

  /** `HumanReasoningEngine.solve` */
  method Solve(solver: Solver, initial: PuzzleState, maxSteps: int) returns (r: Result<Trace>)
    requires solver.puzzle.WellFormed()
    ensures r == Outcome(solver, initial, maxSteps)
  {
    if !UniqueIdentities(solver.rules) {
      return Err(RuleContract);
    }
    if maxSteps <= 0 {
      return Err(InvalidValue);
    }
    var valid := ValidateState(initial, solver.puzzle);
    if !valid {
      return Err(RuleContract);
    }
    var p := Start(solver, initial);
    while !p.current.Solved() && p.applied < maxSteps
      invariant ValidState(p.current, solver.puzzle)
      invariant Outcome(solver, initial, maxSteps) == Run(solver, initial, p, maxSteps)
      decreases StateSlack(p.current), UntriedCount(solver, p)
    {
      var turn := TakeTurn(solver, p);
      if turn.Err? {
        return Err(turn.error);
      }
      if turn.value.Halt? {
        return Ok(Finish(initial, turn.value.status, turn.value.progress));
      }
      TurnMakesProgress(solver, p);
      p := turn.value.progress;
    }
    return Ok(Finish(initial, if p.current.Solved() then Solved else LimitReached, p));
  }
}

/** What one turn of the solve loop does in each case, and what a trace tells about its attempts. */
module EngineTraces {
  import opened Prelude
  import opened Domain
  import opened State
  import opened Events
  import opened Reducer
  import opened Encoding
  import opened Coordinator
  import opened Rules
  import opened Engine
  import opened EngineTheorems

  // ----- proposals -----

  /** The proposal restates its candidate about this state, cites only what is asserted and active, and concludes
      one thing about a variable it names that the state leaves open. */
  predicate Proposes(puzzle: Puzzle, state: PuzzleState, c: Candidate, p: Proposal, conclusion: Atom) {
    && p.candidate == c.id && p.rule == c.rule && p.source == OfState(state)
    && p.premises == c.premises && p.affected == c.affected && p.supporting == c.supporting && p.conclusions == [conclusion]
    && (forall atom :: atom in c.premises ==> atom in state.asserted)
    && (forall id :: id in c.supporting ==> id in state.active)
    && (forall v :: v in c.affected ==> v in puzzle.variables)
    && !conclusion.OtherAtom? && conclusion.variable in c.affected
    && conclusion.variable in state.candidates && conclusion.value in state.candidates[conclusion.variable]
    && |state.candidates[conclusion.variable]| != 1
  }

  lemma {:induction false} ProposalExactly(puzzle: Puzzle, state: PuzzleState, c: Candidate, p: Proposal,
      conclusion: Atom)
    ensures ValidateProposal(puzzle, state, c, p) == Ok(conclusion) <==> Proposes(puzzle, state, c, p, conclusion)
  {
    if Proposes(puzzle, state, c, p, conclusion) {
      assert p.conclusions[0] == conclusion;
    }
  }

  /** The candidate's rule, which is the one registered under its reference, makes a valid proposal of it. */
  ghost predicate RuleProposes(solver: Solver, state: PuzzleState, c: Candidate, p: Proposal, conclusion: Atom) {
    exists rule :: rule in solver.rules && rule.reference == c.rule && rule.apply(c, state) == Ok(p)
      && Proposes(solver.puzzle, state, c, p, conclusion)
  }

  lemma {:induction false} RuleProposesExactly(solver: Solver, state: PuzzleState, c: Candidate, p: Proposal,
      conclusion: Atom)
    requires UniqueIdentities(solver.rules)
    ensures Propose(solver, state, c) == Ok((p, conclusion)) <==> RuleProposes(solver, state, c, p, conclusion)
  {
    hide ValidateProposal, Proposes;
    FoundRuleMatches(solver.rules, c.rule);
    ProposalExactly(solver.puzzle, state, c, p, conclusion);
    var found := FindRule(solver.rules, c.rule);
    if RuleProposes(solver, state, c, p, conclusion) {
      var rule :| rule in solver.rules && rule.reference == c.rule && rule.apply(c, state) == Ok(p)
        && Proposes(solver.puzzle, state, c, p, conclusion);
      var i :| 0 <= i < |solver.rules| && solver.rules[i] == rule;
      var j :| 0 <= j < |solver.rules| && solver.rules[j] == found.value;
      assert Identity(solver.rules[i]) == Identity(solver.rules[j]);
    }
  }

  // ----- the choice -----

  /** The run chooses what its policy prefers among all that its rules discover and it has not tried in this
      state, and nothing exactly when there is no such candidate. */
  lemma {:induction false} ChoiceIsPreferred(solver: Solver, p: Progress)
    requires Choose(solver, p).Ok?
    ensures Discover(solver.puzzle, p.current, solver.rules).Ok?
    ensures var found := Discover(solver.puzzle, p.current, solver.rules).value;
      && (Choose(solver, p).value.None? <==> forall c :: c in found ==> (OfState(p.current), c.id) in p.attempted)
      && (Choose(solver, p).value.Some? ==>
            var best := Choose(solver, p).value.value;
            && best in found && (OfState(p.current), best.id) !in p.attempted
            && forall c :: c in found && (OfState(p.current), c.id) !in p.attempted ==> Preferred(solver.policy, best, c))
  {
    hide Discover, Preferred, Select;
    var found := Discover(solver.puzzle, p.current, solver.rules).value;
    var untried := Untried(found, OfState(p.current), p.attempted);
    forall c ensures c in untried <==> c in found && (OfState(p.current), c.id) !in p.attempted {
      if c in found && (OfState(p.current), c.id) !in p.attempted {
        UntriedIsComplete(found, OfState(p.current), p.attempted, c);
      }
    }
    if untried != [] {
      assert untried[0] in untried;
    }
    forall c | c in untried ensures Preferred(solver.policy, Select(untried, solver.policy).value, c) {
      PolicyPrefers(untried, solver.policy, c);
    }
  }

  // ----- one turn -----

  /** The state, the events and the step count are untouched; one attempt without an event is added. */
  ghost predicate OnlyRecords(p: Progress, q: Progress, attempt: Attempt) {
    && q == p.(attempts := p.attempts + [attempt], attempted := q.attempted)
    && attempt.event.None? && attempt.result.None?
  }

  /** One sealed event continues the stream, the state is reduced by it, and the attempt names both. */
  ghost predicate Accepts(p: Progress, q: Progress, attempt: Attempt, event: Event) {
    && q.events == p.events + [event] && q.previous == event.hash && q.applied == p.applied + 1
    && q.attempts == p.attempts + [attempt]
    && Verified(event) && event.body.sequenceNo == p.current.sequenceNo + 1 && event.body.previous == p.previous
    && Reduce(p.current, event) == Ok(q.current)
    && attempt.event == Some(event.body.eventId) && attempt.result == Some(OfState(q.current))
  }

  /** The event is the caller's trace's, for this puzzle and branch, named by candidate, position, state and trace, and
      attributes its claim about this state to a human rule. */
  ghost predicate Issued(solver: Solver, p: Progress, candidate: Identifier, event: Event) {
    var context, body := solver.context, event.body;
    var source, next := OfState(p.current), p.current.sequenceNo + 1;
    && body.trace == context.trace && body.revision == solver.puzzle.revision && body.branch == p.current.branch
    && body.context == context.envelope && body.eventId == context.eventName(candidate, next, source, context.trace)
    && (body.payload.ValueAssigned? || body.payload.CandidatesEliminated?)
    && body.payload.source == source && body.payload.origin.HumanRule?
    && body.payload.resultState == context.stateName(candidate, next, source, context.trace)
  }

  /** One such event is applied, with this claim. */
  ghost predicate Settles(solver: Solver, p: Progress, q: Progress, attempt: Attempt, conclusion: Atom) {
    exists event ::
      && Accepts(p, q, attempt, event) && Claims(event.body.payload) == {conclusion}
      && Issued(solver, p, attempt.candidate, event)
  }

  /** A turn, case by case. Nothing left to try stalls the run. A candidate whose rule makes no valid proposal is
      recorded as rejected. Otherwise the backends' decision on the conclusion decides: acceptance appends and
      applies one event, rejection is recorded and the run goes on, an open or contradictory decision is recorded
      and ends it. */
  lemma {:induction false} TurnTable(solver: Solver, p: Progress)
    requires solver.puzzle.WellFormed() && UniqueIdentities(solver.rules) && TakeTurn(solver, p).Ok?
    ensures var turn := TakeTurn(solver, p).value;
      && Choose(solver, p).Ok?
      && match Choose(solver, p).value
         case None => turn == Halt(Stalled, p)
         case Some(c) =>
           && |turn.progress.attempts| == |p.attempts| + 1
           && var attempt := turn.progress.attempts[|p.attempts|];
              && attempt.candidate == c.id && attempt.rule == c.rule && attempt.premises == c.premises
              && attempt.source == OfState(p.current)
              && turn.progress.attempted == p.attempted + {(OfState(p.current), c.id)}
              && ((forall proposal, conclusion :: !RuleProposes(solver, p.current, c, proposal, conclusion)) ==>
                    && turn.Advance? && attempt.status.Rejected? && attempt.conclusions == []
                    && OnlyRecords(p, turn.progress, attempt))
              && forall proposal, conclusion :: RuleProposes(solver, p.current, c, proposal, conclusion) ==>
                   Decided(solver, p, turn, attempt, proposal, conclusion)
  {
    hide Discover, ValidateProposal, Decide, Reduce, ValidState, RuleProposes;
    var chosen := Choose(solver, p).value;
    if chosen.Some? {
      var c := chosen.value;
      forall proposal, conclusion
        ensures Propose(solver, p.current, c) == Ok((proposal, conclusion)) <==> RuleProposes(solver, p.current, c, proposal, conclusion)
      {
        RuleProposesExactly(solver, p.current, c, proposal, conclusion);
      }
      var proposed := Propose(solver, p.current, c);
      if proposed.Ok? {
        assert Propose(solver, p.current, c) == Ok((proposed.value.0, proposed.value.1));
        ProposalExactly(solver.puzzle, p.current, c, proposed.value.0, proposed.value.1);
        ResolutionDecided(solver, p, c, proposed.value.0, proposed.value.1);
      }
    }
  }

  /** What the decision on a valid proposal does to the run. */
  ghost predicate Decided(solver: Solver, p: Progress, turn: Turn, attempt: Attempt, proposal: Proposal,
      conclusion: Atom)
  {
    var obligation := Obligation(solver.context.obligationName(proposal), solver.puzzle.revision, proposal.source,
                                 proposal.premises, conclusion);
    var status := Decide(solver.backends, solver.puzzle, p.current, obligation).status;
    && attempt.status == status && attempt.conclusions == [conclusion]
    && match status
       case BackendVerified => turn.Advance? && Settles(solver, p, turn.progress, attempt, conclusion)
       case CrossVerified => turn.Advance? && Settles(solver, p, turn.progress, attempt, conclusion)
       case Rejected => turn.Advance? && OnlyRecords(p, turn.progress, attempt)
       case Inconclusive => turn.Halt? && turn.status == NotConcluded && OnlyRecords(p, turn.progress, attempt)
       case Quarantined => turn.Halt? && turn.status == InQuarantine && OnlyRecords(p, turn.progress, attempt)
  }

  lemma {:induction false} ResolutionDecided(solver: Solver, p: Progress, c: Candidate, proposal: Proposal,
      conclusion: Atom)
    requires solver.puzzle.WellFormed() && !conclusion.OtherAtom? && proposal.conclusions == [conclusion]
    requires Resolve(solver, Mark(p, c), c, proposal, conclusion).Ok?
    ensures var turn := Resolve(solver, Mark(p, c), c, proposal, conclusion).value;
      && |turn.progress.attempts| == |p.attempts| + 1
      && Decided(solver, p, turn, turn.progress.attempts[|p.attempts|], proposal, conclusion)
  {
    hide ValidateProposal, Decide, Reduce, ValidState;
    var event := EventFor(solver, Mark(p, c), c, conclusion);
    assert event == EventFor(solver, p, c, conclusion);
    var turn := Resolve(solver, Mark(p, c), c, proposal, conclusion).value;
    if Decide(solver.backends, solver.puzzle, p.current, ObligationFor(solver, proposal, conclusion)).status.Accepted() {
      assert Accepts(p, turn.progress, turn.progress.attempts[|p.attempts|], event);
    }
  }

  // ----- whole traces -----

  /** The identifiers of the events the attempts led to, in order. */
  function EventNames(attempts: seq<Attempt>): seq<Identifier> {
    if attempts == [] then []
    else
      var n := |attempts| - 1;
      EventNames(attempts[..n]) + (if attempts[n].event.Some? then [attempts[n].event.value] else [])
  }

  function NamesOf(events: seq<Event>): (names: seq<Identifier>)
    ensures |names| == |events|
  {
    seq(|events|, i requires 0 <= i < |events| => events[i].body.eventId)
  }

  /** An attempt has an event, and a state it led to, exactly when it was accepted. */
  predicate Plain(attempt: Attempt) {
    (attempt.event.Some? <==> attempt.status.Accepted()) && (attempt.result.Some? <==> attempt.status.Accepted())
  }

  /** So far: attempts are as they should be, none left the run open or in quarantine, and the events are those of
      the accepted attempts. */
  ghost predicate Tells(p: Progress) {
    && (forall i :: 0 <= i < |p.attempts| ==> Plain(p.attempts[i]))
    && EventNames(p.attempts) == NamesOf(p.events) && p.applied == |p.events|
  }

  ghost predicate Continues(p: Progress) {
    forall i :: 0 <= i < |p.attempts| ==> !p.attempts[i].status.Inconclusive? && !p.attempts[i].status.Quarantined?
  }

  lemma {:induction false} NamesExtend(attempts: seq<Attempt>, attempt: Attempt)
    ensures EventNames(attempts + [attempt])
      == EventNames(attempts) + (if attempt.event.Some? then [attempt.event.value] else [])
  {
    assert (attempts + [attempt])[..|attempts|] == attempts;
  }

  lemma {:induction false} RecordTells(p: Progress, q: Progress, attempt: Attempt)
    requires Tells(p) && Continues(p) && OnlyRecords(p, q, attempt) && !attempt.status.Accepted()
    ensures Tells(q) && q.events == p.events && q.current == p.current
    ensures attempt.status.Rejected? ==> Continues(q)
    ensures attempt.status.Inconclusive? ==> Ended(q.attempts, NotConcluded)
    ensures attempt.status.Quarantined? ==> Ended(q.attempts, InQuarantine)
  {
    NamesExtend(p.attempts, attempt);
  }

  lemma {:induction false} AcceptanceTells(p: Progress, q: Progress, attempt: Attempt, event: Event)
    requires Tells(p) && Continues(p) && Accepts(p, q, attempt, event) && attempt.status.Accepted()
    ensures Tells(q) && Continues(q) && |q.events| == |p.events| + 1
  {
    NamesExtend(p.attempts, attempt);
    assert NamesOf(p.events + [event]) == NamesOf(p.events) + [event.body.eventId];
  }

  lemma {:induction false} TurnTells(solver: Solver, p: Progress)
    requires solver.puzzle.WellFormed() && UniqueIdentities(solver.rules) && TakeTurn(solver, p).Ok?
    requires Tells(p) && Continues(p)
    ensures var turn := TakeTurn(solver, p).value;
      && Tells(turn.progress) && |turn.progress.events| <= |p.events| + 1
      && (turn.Advance? ==> Continues(turn.progress))
      && (turn.Halt? ==>
            && |turn.progress.events| == |p.events| && turn.progress.current == p.current
            && Ended(turn.progress.attempts, turn.status) && turn.status != Solved && turn.status != LimitReached)
  {
    hide RuleProposes, Choose, Decide, Reduce, TakeTurn, Accepts, OnlyRecords, Tells, Continues, Ended;
    TurnTable(solver, p);
    var turn := TakeTurn(solver, p).value;
    var chosen := Choose(solver, p).value;
    if chosen.Some? {
      var c, attempt := chosen.value, turn.progress.attempts[|p.attempts|];
      if proposal, conclusion :| RuleProposes(solver, p.current, c, proposal, conclusion) {
        assert Decided(solver, p, turn, attempt, proposal, conclusion);
        if attempt.status.Accepted() {
          var event :| Accepts(p, turn.progress, attempt, event);
          AcceptanceTells(p, turn.progress, attempt, event);
        } else {
          RecordTells(p, turn.progress, attempt);
        }
      } else {
        RecordTells(p, turn.progress, attempt);
      }
    } else {
      StallEnds(p);
    }
  }

  lemma {:induction false} StallEnds(p: Progress)
    requires Continues(p)
    ensures Ended(p.attempts, Stalled)
  {
  }

  /** Only the last attempt can be open or contradictory, and then the status says so. */
  ghost predicate Ended(attempts: seq<Attempt>, status: Status) {
    var n := |attempts| - 1;
    && (forall i :: 0 <= i < n ==> !attempts[i].status.Inconclusive? && !attempts[i].status.Quarantined?)
    && (status.NotConcluded? <==> attempts != [] && attempts[n].status.Inconclusive?)
    && (status.InQuarantine? <==> attempts != [] && attempts[n].status.Quarantined?)
  }

  lemma {:induction false} RunTells(solver: Solver, initial: PuzzleState, p: Progress, maxSteps: int)
    returns (last: Progress)
    requires solver.puzzle.WellFormed() && UniqueIdentities(solver.rules) && ValidState(p.current, solver.puzzle)
    requires Run(solver, initial, p, maxSteps).Ok? && Tells(p) && Continues(p) && p.applied <= maxSteps
    ensures var trace := Run(solver, initial, p, maxSteps).value;
      && trace == Finish(initial, trace.status, last) && Tells(last) && last.applied <= maxSteps
      && Ended(trace.attempts, trace.status)
      && (trace.status == Solved <==> last.current.Solved())
      && (trace.status == LimitReached <==> !last.current.Solved() && last.applied == maxSteps)
    decreases StateSlack(p.current), UntriedCount(solver, p)
  {
    hide TakeTurn, StateSlack, UntriedCount, ValidState, PuzzleState.Solved, Tells;
    last := p;
    assert p.applied == |p.events| by { TellsCounts(p); }
    if !p.current.Solved() && p.applied < maxSteps {
      TurnTells(solver, p);
      var turn := TakeTurn(solver, p).value;
      last := turn.progress;
      TellsCounts(last);
      if turn.Advance? {
        TurnMakesProgress(solver, p);
        last := RunTells(solver, initial, turn.progress, maxSteps);
      }
    }
  }

  lemma {:induction false} TellsCounts(p: Progress)
    requires Tells(p)
    ensures p.applied == |p.events|
  {
  }

  /** What a trace tells, whatever the backends answer: the accepted attempts are its events, one by one and in
      order, and never more than allowed; it is solved exactly when its last state is, at its limit exactly when
      the steps are used up before that, and not concluded or in quarantine exactly when its last attempt is open
      or contradictory, as no earlier one can be. */
  lemma {:induction false} TraceTells(solver: Solver, initial: PuzzleState, maxSteps: int) returns (final: PuzzleState)
    requires solver.puzzle.WellFormed() && Outcome(solver, initial, maxSteps).Ok?
    ensures var trace := Outcome(solver, initial, maxSteps).value;
      && trace.initial == OfState(initial) && trace.final == OfState(final)
      && (forall i :: 0 <= i < |trace.attempts| ==> Plain(trace.attempts[i]))
      && EventNames(trace.attempts) == NamesOf(trace.events) && |trace.events| <= maxSteps
      && Ended(trace.attempts, trace.status)
      && (trace.status == Solved <==> final.Solved())
      && (trace.status == LimitReached <==> !final.Solved() && |trace.events| == maxSteps)
  {
    hide Run, ValidState, PuzzleState.Solved;
    var last := RunTells(solver, initial, Start(solver, initial), maxSteps);
    final := last.current;
  }
}

/** What a solve trace proves about the puzzle. */
module EngineTheorems {
  import opened Prelude
  import opened Domain
  import opened State
  import opened Events
  import opened Reducer
  import opened Solutions
  import opened Encoding
  import opened Coordinator
  import opened Rules
  import opened Engine

  ghost predicate TrustedBackends(solver: Solver) {
    forall b :: b in solver.backends ==> Trusted(b)
  }

  /** Folding the reducer over events. */
  function Replay(state: PuzzleState, events: seq<Event>): Result<PuzzleState> {
    if events == [] then Ok(state)
    else
      var earlier :- Replay(state, events[..|events| - 1]);
      Reduce(earlier, events[|events| - 1])
  }

  /** The events continue the caller's chain, one sequence number at a time. */
  ghost predicate Linked(events: seq<Event>, previous: Digest, start: nat) {
    forall i :: 0 <= i < |events| ==> LinkedAt(events, previous, start, i)
  }

  ghost predicate LinkedAt(events: seq<Event>, previous: Digest, start: nat, i: nat)
    requires i < |events|
  {
    && Verified(events[i]) && events[i].body.sequenceNo == start + i + 1
    && events[i].body.previous == HeadHash(events[..i], previous)
  }

  /** The hash the next event must link to. */
  function HeadHash(events: seq<Event>, previous: Digest): Digest {
    if events == [] then previous else events[|events| - 1].hash
  }

  /** The recorded events lead from the initial to the current state along a proper chain. */
  ghost predicate Faithful(events: seq<Event>, head: Digest, previous: Digest, initial: PuzzleState,
      current: PuzzleState) {
    && Replay(initial, events) == Ok(current)
    && current.sequenceNo == initial.sequenceNo + |events|
    && Linked(events, previous, initial.sequenceNo)
    && head == HeadHash(events, previous)
  }

  /** The current state means what the initial one meant, and each event settled something. */
  ghost predicate Conservative(puzzle: Puzzle, initial: PuzzleState, current: PuzzleState, steps: nat)
    requires puzzle.WellFormed()
  {
    && ValidState(current, puzzle)
    && SameSolutions(puzzle, initial, current)
    && (steps > 0 ==> HasSolution(puzzle, current) && current.contradictions == [])
    && steps + StateSlack(current) <= StateSlack(initial)
  }

  /** What the loop keeps true of its variables. */
  ghost predicate Sound(solver: Solver, initial: PuzzleState, p: Progress)
    requires solver.puzzle.WellFormed()
  {
    && p.applied == |p.events|
    && Faithful(p.events, p.previous, solver.context.previous, initial, p.current)
    && Conservative(solver.puzzle, initial, p.current, p.applied)
  }

  /** Every solution of the state, of which there is at least one, makes the atom true. */
  ghost predicate Settled(puzzle: Puzzle, state: PuzzleState, atom: Atom)
    requires puzzle.WellFormed()
  {
    Entails(puzzle, state, atom) && HasSolution(puzzle, state) && state.contradictions == []
  }

  /** Trusted backends quarantine nothing; and a claim they accept, from premises the state asserts,
      holds in every solution of a state that has one. */
  lemma {:induction false} AuthorityIsSound(solver: Solver, state: PuzzleState, c: Candidate, proposal: Proposal,
      conclusion: Atom)
    requires solver.puzzle.WellFormed() && TrustedBackends(solver)
    requires ValidateProposal(solver.puzzle, state, c, proposal) == Ok(conclusion)
    ensures !Authority(solver, state, proposal, conclusion).Quarantined?
    ensures Authority(solver, state, proposal, conclusion).Accepted() ==> Settled(solver.puzzle, state, conclusion)
  {
    var obligation := ObligationFor(solver, proposal, conclusion);
    DecisionIsSound(solver.backends, solver.puzzle, state, obligation);
    if Authority(solver, state, proposal, conclusion).Accepted() {
      AssertedAssumptionsAreFree(solver.puzzle, state, obligation);
      var a :| Base(solver.puzzle, state, obligation, a);
      assert Solution(solver.puzzle, state, a);
    }
  }

  lemma {:induction false} ReplayExtends(state: PuzzleState, events: seq<Event>, event: Event)
    requires Replay(state, events).Ok?
    ensures Replay(state, events + [event]) == Reduce(Replay(state, events).value, event)
  {
    assert (events + [event])[..|events|] == events;
  }

  lemma {:induction false} LinkedExtends(events: seq<Event>, previous: Digest, start: nat, event: Event)
    requires Linked(events, previous, start) && Verified(event)
    requires event.body.sequenceNo == start + |events| + 1
    requires event.body.previous == HeadHash(events, previous)
    ensures Linked(events + [event], previous, start)
  {
    var longer := events + [event];
    forall i | 0 <= i < |longer| ensures LinkedAt(longer, previous, start, i) {
      if i < |events| {
        assert LinkedAt(events, previous, start, i);
        assert longer[..i] == events[..i];
      } else {
        assert longer[..i] == events;
      }
    }
  }

  lemma {:induction false} FaithfulExtends(events: seq<Event>, head: Digest, previous: Digest, initial: PuzzleState,
                        current: PuzzleState, event: Event)
    requires Faithful(events, head, previous, initial, current)
    requires Verified(event) && event.body.previous == head && event.body.sequenceNo == current.sequenceNo + 1
    requires Reduce(current, event).Ok?
    ensures Faithful(events + [event], event.hash, previous, initial, Reduce(current, event).value)
  {
    ReplayExtends(initial, events, event);
    LinkedExtends(events, previous, initial.sequenceNo, event);
  }

  /** Reducing by an entailed conclusion keeps every solution, and there is one to keep. */
  lemma {:induction false} SettlingKeepsSolutions(puzzle: Puzzle, current: PuzzleState, event: Event, conclusion: Atom)
    requires puzzle.WellFormed() && ValidState(current, puzzle)
    requires Claims(event.body.payload) == {conclusion} && Settled(puzzle, current, conclusion)
    requires Reduce(current, event).Ok?
    ensures SameSolutions(puzzle, current, Reduce(current, event).value)
    ensures HasSolution(puzzle, Reduce(current, event).value)
  {
    EntailedReductionKeepsSolutions(puzzle, current, event);
    var a :| Solution(puzzle, current, a);
    assert Solution(puzzle, Reduce(current, event).value, a);
  }

  lemma {:induction false} ConservativeExtends(puzzle: Puzzle, initial: PuzzleState, current: PuzzleState, steps: nat,
      next: PuzzleState)
    requires puzzle.WellFormed() && Conservative(puzzle, initial, current, steps)
    requires ValidState(next, puzzle) && SameSolutions(puzzle, current, next) && HasSolution(puzzle, next)
    requires next.contradictions == [] && StateSlack(next) < StateSlack(current)
    ensures Conservative(puzzle, initial, next, steps + 1)
  {
    forall a ensures Solution(puzzle, initial, a) <==> Solution(puzzle, next, a) {
      assert Solution(puzzle, initial, a) <==> Solution(puzzle, current, a);
    }
  }

  /** One applied event keeps the loop sound. */
  lemma {:induction false} SettlingKeepsSound(solver: Solver, initial: PuzzleState, p: Progress, c: Candidate,
                           proposal: Proposal, conclusion: Atom, q: Progress)
    requires solver.puzzle.WellFormed() && Sound(solver, initial, p)
    requires ValidateProposal(solver.puzzle, p.current, c, proposal) == Ok(conclusion)
    requires Settled(solver.puzzle, p.current, conclusion)
    requires Reduce(p.current, EventFor(solver, p, c, conclusion)) == Ok(q.current)
    requires ValidState(q.current, solver.puzzle)
    requires q.events == p.events + [EventFor(solver, p, c, conclusion)]
    requires q.previous == EventFor(solver, p, c, conclusion).hash && q.applied == p.applied + 1
    ensures Sound(solver, initial, q)
  {
    var event := EventFor(solver, p, c, conclusion);
    FaithfulExtends(p.events, p.previous, solver.context.previous, initial, p.current, event);
    SettlingKeepsSolutions(solver.puzzle, p.current, event, conclusion);
    AcceptedEventUsesSlack(solver, p, c, proposal, conclusion);
    ConservativeExtends(solver.puzzle, initial, p.current, p.applied, q.current);
  }

  lemma {:induction false} SoundIgnoresBookkeeping(solver: Solver, initial: PuzzleState, p: Progress, q: Progress)
    requires solver.puzzle.WellFormed() && Sound(solver, initial, p)
    requires q.current == p.current && q.events == p.events && q.previous == p.previous && q.applied == p.applied
    ensures Sound(solver, initial, q)
  {
  }

  /** An accepted proposal leads to a sound state, any other leaves it alone; nothing is quarantined. */
  lemma {:induction false} ResolveKeepsSound(solver: Solver, initial: PuzzleState, p: Progress, c: Candidate,
                          proposal: Proposal, conclusion: Atom, turn: Turn)
    requires solver.puzzle.WellFormed() && TrustedBackends(solver) && Sound(solver, initial, p)
    requires ValidateProposal(solver.puzzle, p.current, c, proposal) == Ok(conclusion)
    requires Resolve(solver, p, c, proposal, conclusion) == Ok(turn)
    ensures Sound(solver, initial, turn.progress) && (turn.Halt? ==> turn.status == NotConcluded)
  {
    AuthorityIsSound(solver, p.current, c, proposal, conclusion);
    if turn.progress.applied != p.applied {
      SettlingKeepsSound(solver, initial, p, c, proposal, conclusion, turn.progress);
    } else {
      SoundIgnoresBookkeeping(solver, initial, p, turn.progress);
    }
  }

  lemma {:induction false} PursuitKeepsSound(solver: Solver, initial: PuzzleState, p: Progress, c: Candidate,
      turn: Turn)
    requires solver.puzzle.WellFormed() && TrustedBackends(solver) && Sound(solver, initial, p)
    requires Pursue(solver, p, c) == Ok(turn)
    ensures Sound(solver, initial, turn.progress) && (turn.Halt? ==> turn.status == NotConcluded)
  {
    hide ValidateProposal, Sound, Resolve, Propose, TrustedBackends;
    var proposed := Propose(solver, p.current, c);
    if proposed.Ok? {
      ResolveKeepsSound(solver, initial, p, c, proposed.value.0, proposed.value.1, turn);
    } else {
      SoundIgnoresBookkeeping(solver, initial, p, turn.progress);
    }
  }

  lemma {:induction false} TurnKeepsSound(solver: Solver, initial: PuzzleState, p: Progress)
    requires solver.puzzle.WellFormed() && TrustedBackends(solver) && Sound(solver, initial, p)
    requires TakeTurn(solver, p).Ok?
    ensures var turn := TakeTurn(solver, p).value;
      Sound(solver, initial, turn.progress) && (turn.Halt? ==> turn.status in {Stalled, NotConcluded})
  {
    var selected := Choose(solver, p).value;
    if selected.Some? {
      PursuitKeepsSound(solver, initial, Mark(p, selected.value), selected.value, TakeTurn(solver, p).value);
    }
  }

  /** What the final trace guarantees; `final` is the state its digest names. */
  ghost predicate Proves(solver: Solver, initial: PuzzleState, maxSteps: int, trace: Trace, final: PuzzleState)
    requires solver.puzzle.WellFormed()
  {
    && trace.initial == OfState(initial) && trace.final == OfState(final)
    && Conservative(solver.puzzle, initial, final, |trace.events|)
    && (exists head :: Faithful(trace.events, head, solver.context.previous, initial, final))
    && trace.status != InQuarantine
    && (trace.status == Solved <==> final.Solved())
    && (trace.status == LimitReached ==> |trace.events| == maxSteps)
  }

  lemma {:induction false} RunProves(solver: Solver, initial: PuzzleState, p: Progress, maxSteps: int)
    returns (final: PuzzleState)
    requires solver.puzzle.WellFormed() && TrustedBackends(solver) && Sound(solver, initial, p)
    requires p.applied <= maxSteps && Run(solver, initial, p, maxSteps).Ok?
    ensures Proves(solver, initial, maxSteps, Run(solver, initial, p, maxSteps).value, final)
    decreases StateSlack(p.current), UntriedCount(solver, p)
  {
    final := p.current;
    if !p.current.Solved() && p.applied < maxSteps {
      TurnKeepsSound(solver, initial, p);
      TurnCounts(solver, p);
      var turn := TakeTurn(solver, p).value;
      if turn.Advance? {
        TurnMakesProgress(solver, p);
        final := RunProves(solver, initial, turn.progress, maxSteps);
      }
    }
  }

  lemma {:induction false} TurnCounts(solver: Solver, p: Progress)
    requires solver.puzzle.WellFormed() && TakeTurn(solver, p).Ok?
    ensures var turn := TakeTurn(solver, p).value;
      && turn.progress.applied <= p.applied + 1
      && (turn.Halt? ==> turn.progress.current == p.current && turn.progress.events == p.events)
  {
  }

  /** End-to-end soundness of `solve` with trusted backends. */
  lemma {:induction false} OutcomeProves(solver: Solver, initial: PuzzleState,
      maxSteps: int) returns (final: PuzzleState)
    requires solver.puzzle.WellFormed() && TrustedBackends(solver)
    requires Outcome(solver, initial, maxSteps).Ok?
    ensures Proves(solver, initial, maxSteps, Outcome(solver, initial, maxSteps).value, final)
  {
    final := RunProves(solver, initial, Start(solver, initial), maxSteps);
  }

  /** The assignment a solved state spells out. */
  function FinalAssignment(state: PuzzleState): Assignment
    requires state.Solved()
  {
    map v | v in state.candidates :: TheOnly(state.candidates[v])
  }

  /** A solved state has at most one solution, the one it spells out. */
  lemma {:induction false} SolvedLeavesOne(puzzle: Puzzle, state: PuzzleState, a: Assignment)
    requires puzzle.WellFormed() && ValidState(state, puzzle) && state.Solved()
    requires Solution(puzzle, state, a)
    ensures a == FinalAssignment(state)
  {
    forall v | v in a ensures v in state.candidates && a[v] == TheOnly(state.candidates[v]) {
      assert a[v] in state.candidates[v];
    }
  }

  /** A solved trace with at least one step proves that the initial state has exactly one solution,
      the one the final state spells out. */
  lemma {:induction false} SolvedTraceProvesUniqueness(solver: Solver, initial: PuzzleState,
      maxSteps: int) returns (final: PuzzleState)
    requires solver.puzzle.WellFormed() && TrustedBackends(solver)
    requires Outcome(solver, initial, maxSteps).Ok?
    requires Outcome(solver, initial, maxSteps).value.status == Solved
    requires Outcome(solver, initial, maxSteps).value.events != []
    ensures Replay(initial, Outcome(solver, initial, maxSteps).value.events) == Ok(final) && final.Solved()
    ensures forall a :: Solution(solver.puzzle, initial, a) <==> a == FinalAssignment(final)
  {
    final := OutcomeProves(solver, initial, maxSteps);
    var found :| Solution(solver.puzzle, initial, found);
    SolvedLeavesOne(solver.puzzle, final, found);
    forall a | Solution(solver.puzzle, initial, a) ensures a == FinalAssignment(final) {
      SolvedLeavesOne(solver.puzzle, final, a);
    }
  }

  /** Without any step nothing was ever checked for satisfiability: a solved trace then says only that
      there is at most one solution. */
  lemma {:induction false} SolvedWithoutStepsProvesAtMostOne(solver: Solver, initial: PuzzleState, maxSteps: int)
    requires solver.puzzle.WellFormed() && Outcome(solver, initial, maxSteps).Ok?
    requires initial.Solved()
    ensures Outcome(solver, initial, maxSteps).value.status == Solved
    ensures Outcome(solver, initial, maxSteps).value.events == []
    ensures forall a :: Solution(solver.puzzle, initial, a) ==> a == FinalAssignment(initial)
  {
    forall a | Solution(solver.puzzle, initial, a) ensures a == FinalAssignment(initial) {
      SolvedLeavesOne(solver.puzzle, initial, a);
    }
  }

  /** What every run does to its counters, whatever its backends answer. */
  ghost predicate Counted(p: Progress, q: Progress) {
    && q.applied - p.applied == |q.events| - |p.events|
    && q.applied + StateSlack(q.current) <= p.applied + StateSlack(p.current)
    && q.current.contradictions == p.current.contradictions
    && (p.current.Structural() ==> q.current.Structural())
  }

  lemma {:induction false} TurnIsCounted(solver: Solver, p: Progress)
    requires solver.puzzle.WellFormed() && TakeTurn(solver, p).Ok?
    ensures Counted(p, TakeTurn(solver, p).value.progress)
    ensures TakeTurn(solver, p).value.Halt? ==> TakeTurn(solver, p).value.status != LimitReached
  {
    hide ValidateProposal, Reduce, Decide, StateSlack, ValidState, PuzzleState.Structural;
    var selected := Choose(solver, p).value;
    if selected.Some? {
      var c := selected.value;
      var proposed := Propose(solver, p.current, c);
      var q := TakeTurn(solver, p).value.progress;
      if proposed.Ok? && q.applied != p.applied {
        AcceptedEventUsesSlack(solver, Mark(p, c), c, proposed.value.0, proposed.value.1);
      }
    }
  }

  lemma {:induction false} RunIsCounted(solver: Solver, initial: PuzzleState, p: Progress, maxSteps: int)
    returns (last: Progress)
    requires solver.puzzle.WellFormed() && ValidState(p.current, solver.puzzle) && Run(solver, initial, p, maxSteps).Ok?
    ensures Counted(p, last)
    ensures var trace := Run(solver, initial, p, maxSteps).value;
      && trace.events == last.events && trace.final == OfState(last.current)
      && (trace.status == LimitReached ==> !last.current.Solved() && last.applied >= maxSteps)
    decreases StateSlack(p.current), UntriedCount(solver, p)
  {
    hide TakeTurn, StateSlack, UntriedCount, ValidState, PuzzleState.Structural;
    last := p;
    if !p.current.Solved() && p.applied < maxSteps {
      TurnIsCounted(solver, p);
      var turn := TakeTurn(solver, p).value;
      last := turn.progress;
      if turn.Advance? {
        TurnMakesProgress(solver, p);
        last := RunIsCounted(solver, initial, turn.progress, maxSteps);
      }
    }
  }

  /** Whatever the backends answer, no run applies more steps than there are surplus candidates; a run that
      reaches its limit had a limit of at most that many, and of fewer unless it started from a state
      already marked contradictory. */
  lemma {:induction false} StepsAreBounded(solver: Solver, initial: PuzzleState, maxSteps: int)
    requires solver.puzzle.WellFormed() && initial.Structural() && Outcome(solver, initial, maxSteps).Ok?
    ensures var trace := Outcome(solver, initial, maxSteps).value;
      && |trace.events| <= StateSlack(initial)
      && (trace.status == LimitReached ==> maxSteps <= StateSlack(initial))
      && (trace.status == LimitReached && initial.contradictions == [] ==> maxSteps < StateSlack(initial))
  {
    hide Run, ValidState, StateSlack, PuzzleState.Structural;
    var last := RunIsCounted(solver, initial, Start(solver, initial), maxSteps);
    if !last.current.Solved() && last.current.contradictions == [] {
      UnsolvedHasSlack(last.current);
    }
  }

  /** With trusted backends a contradictory state is never advanced, so the limit is always below. */
  lemma {:induction false} TrustedLimitLeavesRoom(solver: Solver, initial: PuzzleState, maxSteps: int)
    requires solver.puzzle.WellFormed() && TrustedBackends(solver) && initial.Structural()
    requires Outcome(solver, initial, maxSteps).Ok?
    requires Outcome(solver, initial, maxSteps).value.status == LimitReached
    ensures maxSteps < StateSlack(initial)
  {
    hide Run, ValidState, StateSlack, PuzzleState.Structural;
    var final := OutcomeProves(solver, initial, maxSteps);
    var last := RunIsCounted(solver, initial, Start(solver, initial), maxSteps);
    assert last.current == final;
    StepsAreBounded(solver, initial, maxSteps);
  }

  /** A state with no contradictions that is not solved still has a choice open. */
  lemma {:induction false} UnsolvedHasSlack(state: PuzzleState)
    requires state.Structural() && !state.Solved() && state.contradictions == []
    ensures StateSlack(state) > 0
  {
    var v :| v in state.candidates && |state.candidates[v]| != 1;
    assert |state.candidates[v]| != 0;
    SlackSplits(state.candidates.Keys, state.candidates, v);
  }

  // ----- a stalled run has tried everything -----

  /** What was attempted is on record. */
  ghost predicate Recorded(attempts: seq<Attempt>, source: Digest, candidate: Identifier) {
    exists i :: 0 <= i < |attempts| && attempts[i].source == source && attempts[i].candidate == candidate
  }

  ghost predicate KeepsRecord(p: Progress) {
    forall pair :: pair in p.attempted ==> Recorded(p.attempts, pair.0, pair.1)
  }

  /** Events only get longer, and the state changes with them only. */
  ghost predicate Lengthens(p: Progress, q: Progress) {
    |p.events| <= |q.events| && (|p.events| == |q.events| ==> p.current == q.current)
  }

  lemma {:induction false} UntriedIsComplete(candidates: seq<Candidate>, source: Digest,
      attempted: set<(Digest, Identifier)>, c: Candidate)
    requires c in candidates && (source, c.id) !in attempted
    ensures c in Untried(candidates, source, attempted)
  {
    if c != candidates[0] {
      UntriedIsComplete(candidates[1..], source, attempted, c);
    }
  }

  lemma {:induction false} RecordingKeeps(p: Progress, c: Candidate, q: Progress, attempt: Attempt)
    requires KeepsRecord(p) && attempt.candidate == c.id && attempt.source == OfState(p.current)
    requires q.attempted == Mark(p, c).attempted && q.attempts == p.attempts + [attempt]
    ensures KeepsRecord(q)
  {
    forall pair | pair in q.attempted ensures Recorded(q.attempts, pair.0, pair.1) {
      if pair in p.attempted {
        var i :| 0 <= i < |p.attempts| && p.attempts[i].source == pair.0 && p.attempts[i].candidate == pair.1;
        assert q.attempts[i] == p.attempts[i];
      } else {
        assert q.attempts[|p.attempts|] == attempt;
      }
    }
  }

  lemma {:induction false} PursuitRecords(solver: Solver, p: Progress, c: Candidate) returns (attempt: Attempt)
    requires solver.puzzle.WellFormed() && Pursue(solver, p, c).Ok?
    ensures Pursue(solver, p, c).value.Halt? ==> Pursue(solver, p, c).value.status != Stalled
    ensures var q := Pursue(solver, p, c).value.progress;
      && attempt.candidate == c.id && attempt.source == OfState(p.current)
      && q.attempted == p.attempted && q.attempts == p.attempts + [attempt] && Lengthens(p, q)
  {
    hide ValidateProposal, Reduce, Decide, ValidState, Evaluate;
    var q := Pursue(solver, p, c).value.progress;
    attempt := q.attempts[|p.attempts|];
  }

  lemma {:induction false} TurnKeepsRecord(solver: Solver, p: Progress)
    requires solver.puzzle.WellFormed() && TakeTurn(solver, p).Ok? && KeepsRecord(p)
    ensures var turn := TakeTurn(solver, p).value;
      && KeepsRecord(turn.progress) && Lengthens(p, turn.progress)
      && (turn.Halt? && turn.status == Stalled ==>
            turn.progress == p && TriedAll(solver, p.current, p.attempts))
  {
    hide Pursue, Discover, KeepsRecord;
    var selected := Choose(solver, p).value;
    if selected.Some? {
      var c := selected.value;
      var attempt := PursuitRecords(solver, Mark(p, c), c);
      RecordingKeeps(p, c, Pursue(solver, Mark(p, c), c).value.progress, attempt);
    } else {
      NothingUntried(solver, p);
    }
  }

  /** The rules discover nothing in the state that is not among the attempts. */
  ghost predicate TriedAll(solver: Solver, state: PuzzleState, attempts: seq<Attempt>) {
    var found := Discover(solver.puzzle, state, solver.rules);
    found.Ok? && forall c :: c in found.value ==> Recorded(attempts, OfState(state), c.id)
  }

  lemma {:induction false} NothingUntried(solver: Solver, p: Progress)
    requires KeepsRecord(p) && Choose(solver, p) == Ok(None)
    ensures TriedAll(solver, p.current, p.attempts)
  {
    hide Discover;
    var found := Discover(solver.puzzle, p.current, solver.rules).value;
    forall c | c in found ensures Recorded(p.attempts, OfState(p.current), c.id) {
      var pair := (OfState(p.current), c.id);
      if pair !in p.attempted {
        UntriedIsComplete(found, OfState(p.current), p.attempted, c);
      }
      assert Recorded(p.attempts, pair.0, pair.1);
    }
  }

  lemma {:induction false} RunKeepsRecord(solver: Solver, initial: PuzzleState, p: Progress, maxSteps: int)
    returns (last: Progress)
    requires solver.puzzle.WellFormed() && ValidState(p.current, solver.puzzle) && Run(solver, initial, p, maxSteps).Ok?
    requires KeepsRecord(p)
    ensures Lengthens(p, last)
    ensures var trace := Run(solver, initial, p, maxSteps).value;
      && trace == Finish(initial, trace.status, last)
      && (trace.status == Stalled ==> TriedAll(solver, last.current, last.attempts))
    decreases StateSlack(p.current), UntriedCount(solver, p)
  {
    hide TakeTurn, StateSlack, UntriedCount, ValidState, KeepsRecord, TriedAll;
    last := p;
    if !p.current.Solved() && p.applied < maxSteps {
      TurnKeepsRecord(solver, p);
      var turn := TakeTurn(solver, p).value;
      last := turn.progress;
      if turn.Advance? {
        TurnMakesProgress(solver, p);
        last := RunKeepsRecord(solver, initial, turn.progress, maxSteps);
      }
    }
  }

  /** A run only ever stalls in a state in which it has attempted everything its rules discover there; if no
      event was accepted, that state is the initial one. */
  lemma {:induction false} StalledTriedAll(solver: Solver, initial: PuzzleState,
      maxSteps: int) returns (final: PuzzleState)
    requires solver.puzzle.WellFormed() && Outcome(solver, initial, maxSteps).Ok?
    requires Outcome(solver, initial, maxSteps).value.status == Stalled
    ensures var trace := Outcome(solver, initial, maxSteps).value;
      && trace.final == OfState(final) && (trace.events == [] ==> final == initial)
      && TriedAll(solver, final, trace.attempts)
  {
    hide Run, ValidState, TriedAll;
    var last := RunKeepsRecord(solver, initial, Start(solver, initial), maxSteps);
    final := last.current;
  }

  // ----- registration order -----

  lemma {:induction false} FoundRuleMatches(rules: seq<Rule>, reference: RuleReference)
    ensures var r := FindRule(rules, reference);
      && (r.Some? ==> r.value in rules && r.value.reference == reference)
      && (r.None? ==> forall rule :: rule in rules ==> rule.reference != reference)
  {
    if rules != [] {
      FoundRuleMatches(rules[1..], reference);
      assert rules == [rules[0]] + rules[1..];
    }
  }

  lemma {:induction false} LookupForgetsOrder(rules: seq<Rule>, permuted: seq<Rule>, reference: RuleReference)
    requires multiset(rules) == multiset(permuted) && UniqueIdentities(rules)
    ensures FindRule(rules, reference) == FindRule(permuted, reference)
  {
    FoundRuleMatches(rules, reference);
    FoundRuleMatches(permuted, reference);
    var found, other := FindRule(rules, reference), FindRule(permuted, reference);
    forall rule ensures rule in rules <==> rule in permuted {
      assert rule in multiset(rules) <==> rule in multiset(permuted);
    }
    if other.Some? {
      var i :| 0 <= i < |rules| && rules[i] == found.value;
      var j :| 0 <= j < |rules| && rules[j] == other.value;
      assert Identity(rules[i]) == Identity(rules[j]);
    }
  }

  /** The same solver with its rules listed differently. */
  ghost predicate SameRules(solver: Solver, other: Solver) {
    && other == solver.(rules := other.rules)
    && multiset(solver.rules) == multiset(other.rules)
    && UniqueIdentities(solver.rules) && UniqueIdentities(other.rules)
  }

  lemma {:induction false} TurnForgetsOrder(solver: Solver, other: Solver, p: Progress)
    requires solver.puzzle.WellFormed() && SameRules(solver, other)
    ensures TakeTurn(solver, p) == TakeTurn(other, p)
  {
    DiscoveryForgetsOrder(solver.puzzle, p.current, solver.rules, other.rules);
    assert Choose(solver, p) == Choose(other, p);
    var selected := Choose(solver, p);
    if selected.Ok? && selected.value.Some? {
      PursuitForgetsOrder(solver, other, Mark(p, selected.value.value), selected.value.value);
    }
  }

  lemma {:induction false} PursuitForgetsOrder(solver: Solver, other: Solver, p: Progress, c: Candidate)
    requires solver.puzzle.WellFormed() && SameRules(solver, other)
    ensures Pursue(solver, p, c) == Pursue(other, p, c)
  {
    hide ValidateProposal, Decide, ApplyVerified, ValidState;
    LookupForgetsOrder(solver.rules, other.rules, c.rule);
    assert Propose(solver, p.current, c) == Propose(other, p.current, c);
  }

  lemma {:induction false} RunForgetsOrder(solver: Solver, other: Solver, initial: PuzzleState, p: Progress,
      maxSteps: int)
    requires solver.puzzle.WellFormed() && SameRules(solver, other) && ValidState(p.current, solver.puzzle)
    ensures Run(solver, initial, p, maxSteps) == Run(other, initial, p, maxSteps)
    decreases StateSlack(p.current), UntriedCount(solver, p)
  {
    hide TakeTurn, ValidState;
    TurnForgetsOrder(solver, other, p);
    var turn := TakeTurn(solver, p);
    if turn.Ok? && turn.value.Advance? {
      TurnMakesProgress(solver, p);
      RunForgetsOrder(solver, other, initial, turn.value.progress, maxSteps);
    }
  }

  /** The whole trace is the same for every ordering of the registered rules. */
  lemma {:induction false} OutcomeForgetsOrder(solver: Solver, other: Solver, initial: PuzzleState, maxSteps: int)
    requires solver.puzzle.WellFormed() && SameRules(solver, other)
    ensures Outcome(solver, initial, maxSteps) == Outcome(other, initial, maxSteps)
  {
    hide ValidState, Run;
    if maxSteps > 0 && ValidState(initial, solver.puzzle) {
      RunForgetsOrder(solver, other, initial, Start(solver, initial), maxSteps);
    }
  }
}

/** Exactly which events a branch projection accepts, and what each changes. */
module BranchSteps {
  import opened Prelude
  import opened Domain
  import opened State
  import opened Events
  import opened Reducer
  import opened Branches
  import opened BranchTheorems

  /** Sealed, later than everything reduced so far, and about the same puzzle revision. */
  predicate Timely(p: Projection, event: Event)
    requires p.Valid()
  {
    Verified(event) && event.body.sequenceNo > p.sequenceNo && event.body.revision == p.states[p.active].revision
  }

  // ----- mutations -----

  /** Search changes only search branches, and only search changes them; anything can be found contradictory. */
  predicate Disclosed(r: BranchRecord, payload: Payload) {
    match payload
    case CandidatesEliminated(_, _, _, _, origin) => origin.SearchOrigin? <==> r.fork.Some? && r.fork.value.opening.BySearch?
    case ValueAssigned(_, _, _, _, origin) => origin.SearchOrigin? <==> r.fork.Some? && r.fork.value.opening.BySearch?
    case _ => true
  }

  /** Everything but the active branch stays, and that branch keeps its origin. */
  predicate OnlyActiveChanged(p: Projection, q: Projection)
    requires p.Valid()
  {
    && q.active == p.active && q.records.Keys == p.records.Keys && q.states.Keys == p.states.Keys
    && (forall b :: b in p.records && b != p.active ==> q.records[b] == p.records[b] && q.states[b] == p.states[b])
    && q.records[p.active].fork == p.records[p.active].fork
    && q.records[p.active].openedFrom == p.records[p.active].openedFrom
    && q.records[p.active].openedAt == p.records[p.active].openedAt
  }

  /** A mutation is accepted exactly when it is timely, disclosed, about the active branch while that branch is
      open, and its state takes it. A contradiction then marks the branch, any other mutation leaves it open. */
  lemma {:induction false} MutationExactly(p: Projection, event: Event)
    requires p.Valid() && IsMutation(event.body.payload)
    ensures ReduceProjection(p, event).Ok? <==>
      && Timely(p, event) && event.body.branch == p.active && p.records[p.active].status.Open?
      && Disclosed(p.records[p.active], event.body.payload) && Reduce(p.states[p.active], event).Ok?
    ensures ReduceProjection(p, event).Ok? ==>
      var q := ReduceProjection(p, event).value;
      && OnlyActiveChanged(p, q) && q.sequenceNo == event.body.sequenceNo
      && q.states[p.active] == Reduce(p.states[p.active], event).value
      && q.records[p.active].latest == OfState(q.states[p.active])
      && q.records[p.active].status == (if event.body.payload.ContradictionDetected? then Contradicted else Open)
      && q.records[p.active].closedAt == p.records[p.active].closedAt
  {
    hide Reduce, Fits;
  }

  /** A branch marked contradictory takes no further mutation and opens no branch; it can only be closed. */
  lemma {:induction false} ContradictedIsFrozen(p: Projection, event: Event)
    requires p.Valid() && !p.records[p.active].status.Open? && ReduceProjection(p, event).Ok?
    ensures event.body.payload.BranchClosed? || ReduceProjection(p, event).value == p.(sequenceNo := event.body.sequenceNo)
  {
    hide Reduce, Fits, Derive;
  }

  // ----- openings -----

  /** The assumption is open in the state. */
  predicate Assumable(parent: PuzzleState, assumption: Atom) {
    match assumption
    case AssignmentAtom(v, x) => v in parent.candidates && x in parent.candidates[v]
    case ExclusionAtom(v, x) => v in parent.candidates && x in parent.candidates[v] && parent.candidates[v] != {x}
    case OtherAtom(_) => true
  }

  function Assumed(parent: PuzzleState, assumption: Atom, v: VariableId): set<ValueId>
    requires v in parent.candidates
  {
    if assumption.AssignmentAtom? && assumption.variable == v then {assumption.value}
    else if assumption.ExclusionAtom? && assumption.variable == v then parent.candidates[v] - {assumption.value}
    else parent.candidates[v]
  }

  /** The state of the new branch, field by field: the assumption and what it settles are asserted. */
  ghost predicate ForksTo(parent: PuzzleState, event: Event, child: PuzzleState)
    requires event.body.payload.BranchOpened?
  {
    var p := event.body.payload;
    && child.stateId == p.resultState && child.revision == parent.revision
    && child.sequenceNo == event.body.sequenceNo && child.branch == event.body.branch
    && child.rejected == parent.rejected && child.active == parent.active && child.contradictions == []
    && child.candidates.Keys == parent.candidates.Keys
    && (forall v :: v in parent.candidates ==> child.candidates[v] == Assumed(parent, p.assumption, v))
    && (forall atom :: atom in child.asserted <==>
          || atom in parent.asserted || atom == p.assumption
          || (atom.AssignmentAtom? && atom.variable in parent.candidates
              && Assumed(parent, p.assumption, atom.variable) == {atom.value}))
  }

  lemma {:induction false} AssumedExactly(parent: PuzzleState, assumption: Atom)
    ensures Assume(parent.candidates, assumption).Ok? <==> Assumable(parent, assumption)
    ensures Assume(parent.candidates, assumption).Ok? ==>
      var next := Assume(parent.candidates, assumption).value;
      && next.Keys == parent.candidates.Keys
      && forall v :: v in parent.candidates ==> next[v] == Assumed(parent, assumption, v)
  {
    if assumption.ExclusionAtom? && assumption.variable in parent.candidates {
      var all := parent.candidates[assumption.variable];
      if all - {assumption.value} == {} && assumption.value in all {
        assert all == {assumption.value};
      }
    }
  }

  lemma {:induction false} DerivedExactly(parent: PuzzleState, event: Event)
    requires event.body.payload.BranchOpened?
    ensures Derive(parent, event).Ok? ==>
      && event.body.payload.source == OfState(parent) && Assumable(parent, event.body.payload.assumption)
      && ForksTo(parent, event, Derive(parent, event).value) && Derive(parent, event).value.Structural()
    ensures (event.body.payload.source == OfState(parent) && Assumable(parent, event.body.payload.assumption)
             && exists child :: ForksTo(parent, event, child) && child.Structural()) ==> Derive(parent, event).Ok?
  {
    hide PuzzleState.Structural, SingletonAtoms, Assume, Assumed, Assumable;
    var p := event.body.payload;
    AssumedExactly(parent, p.assumption);
    if p.source == OfState(parent) && Assumable(parent, p.assumption) {
      var candidates := Assume(parent.candidates, p.assumption).value;
      var made := PuzzleState(
        p.resultState, parent.revision, event.body.sequenceNo, event.body.branch, candidates,
        parent.asserted + {p.assumption} + SingletonAtoms(candidates), parent.rejected, parent.active, []);
      forall atom ensures atom in made.asserted <==>
        || atom in parent.asserted || atom == p.assumption
        || (atom.AssignmentAtom? && atom.variable in parent.candidates
            && Assumed(parent, p.assumption, atom.variable) == {atom.value})
      {
        SingletonsFollow(candidates, atom);
      }
      assert ForksTo(parent, event, made);
      if child :| ForksTo(parent, event, child) && child.Structural() {
        ForksAlike(parent, event, child, made);
      }
    }
  }

  /** The description leaves nothing open. */
  lemma {:induction false} ForksAlike(parent: PuzzleState, event: Event, s: PuzzleState, t: PuzzleState)
    requires event.body.payload.BranchOpened? && ForksTo(parent, event, s) && ForksTo(parent, event, t)
    ensures s == t
  {
    hide Assumed;
    assert s.asserted == t.asserted;
    forall v | v in parent.candidates ensures s.candidates[v] == t.candidates[v] {
      assert s.candidates[v] == Assumed(parent, event.body.payload.assumption, v);
    }
    assert s.candidates == t.candidates;
  }

  /** A branch is opened exactly under a new name, from the active branch while that branch is open, by an
      assumption open in its state; the new branch becomes the active one. */
  lemma {:induction false} OpeningExactly(p: Projection, event: Event)
    requires p.Valid() && event.body.payload.BranchOpened?
    ensures var parent := p.states[p.active];
      ReduceProjection(p, event).Ok? <==>
        && Timely(p, event) && event.body.branch !in p.records && event.body.payload.parent == p.active
        && p.records[p.active].status.Open? && event.body.payload.source == OfState(parent)
        && Assumable(parent, event.body.payload.assumption)
        && exists child :: ForksTo(parent, event, child) && child.Structural()
    ensures ReduceProjection(p, event).Ok? ==>
      var q, b, payload := ReduceProjection(p, event).value, event.body.branch, event.body.payload;
      && q.active == b && q.sequenceNo == event.body.sequenceNo
      && q.records == p.records[b := BranchRecord(Some(Fork(p.active, payload.assumption, payload.opening)),
                                                  OfState(p.states[p.active]), Open, event.body.sequenceNo, None,
                                                  OfState(q.states[b]))]
      && q.states == p.states[b := q.states[b]] && ForksTo(p.states[p.active], event, q.states[b])
  {
    hide Derive, Fits, ForksTo, PuzzleState.Structural, Assumable;
    DerivedExactly(p.states[p.active], event);
  }

  // ----- closings -----

  function StatusClosed(closure: Closure): BranchStatus {
    if closure.AsContradicted? then Contradicted else if closure.AsSolved? then SolvedBranch else Abandoned
  }

  /** A branch is closed exactly when it is the active one, not the root, in the state the event names, and has
      earned the closure: contradicted after a contradiction, solved when its state is, abandoned at any time.
      The record keeps the closure, no state changes, and the parent becomes active again. */
  lemma {:induction false} ClosingExactly(p: Projection, event: Event)
    requires p.Valid() && event.body.payload.BranchClosed?
    ensures var closure := event.body.payload.closure;
      ReduceProjection(p, event).Ok? <==>
        && Timely(p, event) && event.body.branch == p.active && p.records[p.active].fork.Some?
        && event.body.payload.source == OfState(p.states[p.active])
        && (closure.AsContradicted? ==> p.records[p.active].status.Contradicted?)
        && (closure.AsSolved? ==> p.states[p.active].Solved())
    ensures ReduceProjection(p, event).Ok? ==>
      var q, record := ReduceProjection(p, event).value, p.records[p.active];
      && q.active == record.fork.value.parent && q.states == p.states && q.sequenceNo == event.body.sequenceNo
      && q.records == p.records[p.active := record.(status := StatusClosed(event.body.payload.closure),
                                                    closedAt := Some(event.body.sequenceNo))]
  {
    hide PuzzleState.Solved;
    assert Fits(p.records.Keys, p.active, p.records[p.active], p.states[p.active]);
  }

  /** All other events only advance the sequence number, and must name a retained branch. */
  lemma {:induction false} OtherExactly(p: Projection, event: Event)
    requires p.Valid()
    requires !IsMutation(event.body.payload) && !event.body.payload.BranchOpened? && !event.body.payload.BranchClosed?
    ensures ReduceProjection(p, event).Ok? <==> Timely(p, event) && event.body.branch in p.records
    ensures ReduceProjection(p, event).Ok? ==>
      ReduceProjection(p, event).value == p.(sequenceNo := event.body.sequenceNo)
  {
  }

  // ----- whole runs -----

  /** Closed branches and everything retained of them. */
  ghost predicate KeepsClosed(p: Projection, q: Projection)
    requires p.Valid() && q.Valid()
  {
    forall b :: b in p.records && p.records[b].closedAt.Some? ==>
      b in q.records && q.records[b] == p.records[b] && q.states[b] == p.states[b]
  }

  /** The active branch has never been closed. */
  lemma {:induction false} ActiveIsUnclosed(p: Projection, root: BranchId)
    requires Sane(p, root)
    ensures p.Valid() && p.records[p.active].closedAt.None?
  {
    assert p.active in Chain(p.records, p.active);
  }

  lemma {:induction false} StepKeepsClosed(p: Projection, root: BranchId, event: Event)
    requires Sane(p, root) && ReduceProjection(p, event).Ok?
    ensures KeepsClosed(p, ReduceProjection(p, event).value)
  {
    hide Sane, Reduce, Fits, ReduceProjection, Derive, Disclosed, Timely, ForksTo, Assumable, PuzzleState.Solved,
      PuzzleState.Structural;
    ActiveIsUnclosed(p, root);
    var payload := event.body.payload;
    if IsMutation(payload) {
      MutationExactly(p, event);
    } else if payload.BranchOpened? {
      OpeningExactly(p, event);
    } else if payload.BranchClosed? {
      ClosingExactly(p, event);
    } else {
      OtherExactly(p, event);
    }
  }

  /** Once a branch is closed, no later event of the run touches its record or its state. */
  lemma {:induction false} ClosedIsFinal(genesis: PuzzleState, events: seq<Event>, n: nat)
    requires n <= |events| && Fold(genesis, events).Ok?
    ensures Fold(genesis, events[..n]).Ok?
    ensures KeepsClosed(Fold(genesis, events[..n]).value, Fold(genesis, events).value)
    decreases |events| - n
  {
    hide Sane, ReduceProjection, Fits;
    if n < |events| {
      var m := |events| - 1;
      FoldIsSane(genesis, events[..m]);
      assert events[..m][..n] == events[..n];
      ClosedIsFinal(genesis, events[..m], n);
      if events[m].body.sequenceNo > genesis.sequenceNo {
        StepKeepsClosed(Fold(genesis, events[..m]).value, genesis.branch, events[m]);
      }
    } else {
      assert events[..n] == events;
    }
  }

  // ----- replay -----

  lemma {:induction false} NothingBeforeGenesis(genesis: PuzzleState, events: seq<Event>, n: nat)
    requires Intact(events) && n <= |events| && n <= genesis.sequenceNo + 1
    ensures Fold(genesis, events[..n]) == Ok(Create(genesis))
  {
    hide ReduceProjection, Fits;
    if n > 0 {
      NothingBeforeGenesis(genesis, events, n - 1);
      assert FaultAt(events, n - 1).None?;
      assert events[..n][..n - 1] == events[..n - 1];
    }
  }

  lemma {:induction false} FoldReachesEnd(genesis: PuzzleState, events: seq<Event>, n: nat)
    requires Intact(events) && genesis.sequenceNo < n <= |events| && Fold(genesis, events[..n]).Ok?
    ensures Fold(genesis, events[..n]).value.sequenceNo == n - 1
  {
    hide ReduceProjection, Fits;
    if n == genesis.sequenceNo + 1 {
      NothingBeforeGenesis(genesis, events, n);
    } else {
      assert FaultAt(events, n - 1).None?;
      assert events[..n][..n - 1] == events[..n - 1];
      FoldReachesEnd(genesis, events, n - 1);
    }
  }

  /** A stream is replayed exactly when its chain is intact, the event at the genesis position records the genesis
      state, and every later event is accepted. The result starts from one open root branch that holds the
      genesis state and has reduced everything up to the last event. */
  lemma {:induction false} ReplayExactly(genesis: PuzzleState, events: seq<Event>)
    ensures ReplayProjection(genesis, events).Ok? <==>
      && Intact(events) && genesis.sequenceNo < |events|
      && events[genesis.sequenceNo].body.payload == InitialStateCreated(OfState(genesis))
      && events[genesis.sequenceNo].body.branch == genesis.branch
      && Fold(genesis, events).Ok?
    ensures ReplayProjection(genesis, events).Ok? ==>
      var start := Fold(genesis, events[..genesis.sequenceNo + 1]);
      && start.Ok? && start.value.records.Keys == {genesis.branch} && start.value.states == map[genesis.branch := genesis]
      && start.value.active == genesis.branch && start.value.sequenceNo == genesis.sequenceNo
      && start.value.records[genesis.branch].fork.None? && start.value.records[genesis.branch].status.Open?
      && ReplayProjection(genesis, events) == Fold(genesis, events)
      && ReplayProjection(genesis, events).value.sequenceNo == |events| - 1
  {
    hide Fold, Intact;
    if ReplayProjection(genesis, events).Ok? {
      NothingBeforeGenesis(genesis, events, genesis.sequenceNo + 1);
      assert events[..|events|] == events;
      FoldReachesEnd(genesis, events, |events|);
    }
  }
}

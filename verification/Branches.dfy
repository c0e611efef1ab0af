/** Retained reasoning branches: opening, mutating, contradicting and closing them. */
module Branches {
  import opened Prelude
  import opened Domain
  import opened State
  import opened Events
  import opened Reducer

  type BranchId = Identifier

  datatype BranchStatus = Open | Contradicted | SolvedBranch | Abandoned

  /** What set a branch apart from its parent; the root has no such origin. */
  datatype Fork = Fork(parent: BranchId, assumption: Atom, opening: Opening)

  datatype BranchRecord = BranchRecord(
    fork: Option<Fork>, openedFrom: Digest, status: BranchStatus, openedAt: nat, closedAt: Option<nat>, latest: Digest)

  /** The latest state of every branch, open or closed, and the branch under reduction. */
  datatype Projection = Projection(
    sequenceNo: nat, active: BranchId, records: map<BranchId, BranchRecord>, states: map<BranchId, PuzzleState>)
  {
    /** The validator of the projection. */
    predicate Valid() {
      && records.Keys == states.Keys && active in records
      && forall b :: b in records ==> Fits(records.Keys, b, records[b], states[b])
    }
  }

  /** The validator of one record: close sequences agree with statuses. */
  predicate Consistent(r: BranchRecord) {
    && (r.status.Open? ==> r.closedAt.None?)
    && (r.status.SolvedBranch? || r.status.Abandoned? ==> r.closedAt.Some?)
  }

  /** The parent is retained, and the record names the retained state. */
  predicate Fits(known: set<BranchId>, b: BranchId, r: BranchRecord, state: PuzzleState) {
    && (r.fork.Some? ==> r.fork.value.parent in known)
    && state.branch == b && r.latest == OfState(state) && Consistent(r)
  }

  lemma {:induction false} UpdateFits(p: Projection, b: BranchId, r: BranchRecord, state: PuzzleState,
      sequenceNo: nat, active: BranchId)
    requires p.Valid() && Fits(p.records.Keys + {b}, b, r, state) && active in p.records.Keys + {b}
    ensures Projection(sequenceNo, active, p.records[b := r], p.states[b := state]).Valid()
  {
  }

  function Create(genesis: PuzzleState): Projection {
    Projection(genesis.sequenceNo, genesis.branch,
      map[genesis.branch := BranchRecord(None, OfState(genesis), Open, genesis.sequenceNo, None, OfState(genesis))],
      map[genesis.branch := genesis])
  }

  // ----- opening -----

  /** The candidates under an assumption; opaque assumptions change none. */
  function Assume(candidates: CandidateDomains, assumption: Atom): Result<CandidateDomains> {
    match assumption
    case AssignmentAtom(v, x) =>
      if v in candidates && x in candidates[v] then Ok(candidates[v := {x}]) else Err(StateConflict)
    case ExclusionAtom(v, x) =>
      if v !in candidates || x !in candidates[v] then Err(StateConflict)
      else if candidates[v] - {x} == {} then Err(StateConflict)
      else Ok(candidates[v := candidates[v] - {x}])
    case OtherAtom(_) => Ok(candidates)
  }

  /** The state of a new branch. */
  function Derive(parent: PuzzleState, event: Event): (r: Result<PuzzleState>)
    requires event.body.payload.BranchOpened?
    ensures r.Ok? ==> r.value.branch == event.body.branch
  {
    var p := event.body.payload;
    if p.source != OfState(parent) then Err(StateConflict)
    else
      var candidates :- Assume(parent.candidates, p.assumption);
      BuildState(PuzzleState(
        p.resultState, parent.revision, event.body.sequenceNo, event.body.branch, candidates,
        parent.asserted + {p.assumption} + SingletonAtoms(candidates), parent.rejected, parent.active, []))
  }

  /** `derive_branch_state`: copies the containers and narrows them in place. */
  method DeriveState(parent: PuzzleState, event: Event) returns (r: Result<PuzzleState>)
    requires event.body.payload.BranchOpened?
    ensures r == Derive(parent, event)
  {
    var p := event.body.payload;
    if p.source != OfState(parent) {
      return Err(StateConflict);
    }
    var candidates := parent.candidates;
    var asserted := parent.asserted;
    match p.assumption {
      case AssignmentAtom(v, x) =>
        if v !in candidates || x !in candidates[v] {
          return Err(StateConflict);
        }
        candidates := candidates[v := {x}];
      case ExclusionAtom(v, x) =>
        if v !in candidates || x !in candidates[v] {
          return Err(StateConflict);
        }
        var current := candidates[v] - {x};
        if current == {} {
          return Err(StateConflict);
        }
        candidates := candidates[v := current];
      case OtherAtom(_) =>
    }
    asserted := asserted + {p.assumption};
    asserted := AddSingletons(candidates, asserted);
    r := BuildState(PuzzleState(
      p.resultState, parent.revision, event.body.sequenceNo, event.body.branch, candidates, asserted,
      parent.rejected, parent.active, []));
  }

  // ----- one event -----

  /** Search branches only take search mutations, and only they do. */
  predicate OriginDisclosed(r: BranchRecord, payload: Payload)
    requires payload.CandidatesEliminated? || payload.ValueAssigned?
  {
    (r.fork.Some? && r.fork.value.opening.BySearch?) <==> payload.origin.SearchOrigin?
  }

  function OpenBranch(p: Projection, event: Event): (r: Result<Projection>)
    requires p.Valid() && event.body.payload.BranchOpened?
    ensures r.Ok? ==> r.value.Valid() && r.value.sequenceNo == event.body.sequenceNo
  {
    hide Derive;
    var payload, b := event.body.payload, event.body.branch;
    if b in p.records then Err(StateConflict)
    else if payload.parent != p.active then Err(StateConflict)
    else if !p.records[p.active].status.Open? then Err(StateConflict)
    else
      var parent := p.states[p.active];
      var child :- Derive(parent, event);
      var record := BranchRecord(
        Some(Fork(p.active, payload.assumption, payload.opening)), OfState(parent), Open,
        event.body.sequenceNo, None, OfState(child));
      UpdateFits(p, b, record, child, event.body.sequenceNo, b);
      Ok(Projection(event.body.sequenceNo, b, p.records[b := record], p.states[b := child]))
  }

  function StatusOf(closure: Closure): BranchStatus {
    match closure
    case AsContradicted => Contradicted
    case AsSolved => SolvedBranch
    case AsAbandoned => Abandoned
  }

  function CloseBranch(p: Projection, event: Event): (r: Result<Projection>)
    requires p.Valid() && event.body.payload.BranchClosed?
    ensures r.Ok? ==> r.value.Valid() && r.value.sequenceNo == event.body.sequenceNo
  {
    var payload, b := event.body.payload, event.body.branch;
    if b != p.active then Err(StateConflict)
    else
      var record, state := p.records[b], p.states[b];
      if record.fork.None? then Err(StateConflict)
      else if payload.source != OfState(state) then Err(StateConflict)
      else if payload.closure.AsContradicted? && !record.status.Contradicted? then Err(StateConflict)
      else if payload.closure.AsSolved? && !state.Solved() then Err(StateConflict)
      else
        var closed := record.(status := StatusOf(payload.closure), closedAt := Some(event.body.sequenceNo));
        assert Fits(p.records.Keys, b, record, state);
        UpdateFits(p, b, closed, state, event.body.sequenceNo, record.fork.value.parent);
        assert p.states[b := state] == p.states;
        Ok(Projection(event.body.sequenceNo, record.fork.value.parent, p.records[b := closed], p.states))
  }

  predicate IsMutation(payload: Payload) {
    payload.CandidatesEliminated? || payload.ValueAssigned? || payload.ContradictionDetected?
  }

  function MutateBranch(p: Projection, event: Event): (r: Result<Projection>)
    requires p.Valid() && IsMutation(event.body.payload)
    ensures r.Ok? ==> r.value.Valid() && r.value.sequenceNo == event.body.sequenceNo
  {
    hide Reduce, OriginDisclosed;
    var payload, b := event.body.payload, event.body.branch;
    if b != p.active then Err(StateConflict)
    else
      var record := p.records[b];
      if !record.status.Open? then Err(StateConflict)
      else if !payload.ContradictionDetected? && !OriginDisclosed(record, payload) then Err(SearchDisclosure)
      else
        var state :- Reduce(p.states[b], event);
        var status := if payload.ContradictionDetected? then Contradicted else record.status;
        var mutated := record.(status := status, latest := OfState(state));
        assert Fits(p.records.Keys, b, record, p.states[b]);
        UpdateFits(p, b, mutated, state, event.body.sequenceNo, p.active);
        Ok(Projection(event.body.sequenceNo, p.active, p.records[b := mutated], p.states[b := state]))
  }

  /** `reduce_branch_projection` */
  function ReduceProjection(p: Projection, event: Event): (r: Result<Projection>)
    requires p.Valid()
    ensures r.Ok? ==> r.value.Valid()
    ensures r.Ok? ==> p.sequenceNo < event.body.sequenceNo == r.value.sequenceNo
  {
    var payload := event.body.payload;
    if !Verified(event) then Err(StateConflict)
    else if event.body.sequenceNo <= p.sequenceNo then Err(StateConflict)
    else if event.body.revision != p.states[p.active].revision then Err(StateConflict)
    else if !payload.BranchOpened? && event.body.branch !in p.records then Err(StateConflict)
    else if payload.BranchOpened? then OpenBranch(p, event)
    else if payload.BranchClosed? then CloseBranch(p, event)
    else if IsMutation(payload) then MutateBranch(p, event)
    else Ok(p.(sequenceNo := event.body.sequenceNo))
  }

  // ----- replay -----

  /** The events after the genesis, reduced one after another. */
  function Fold(genesis: PuzzleState, events: seq<Event>): (r: Result<Projection>)
    ensures r.Ok? ==> r.value.Valid()
  {
    if events == [] then Ok(Create(genesis))
    else
      var n := |events| - 1;
      var earlier :- Fold(genesis, events[..n]);
      if events[n].body.sequenceNo > genesis.sequenceNo then ReduceProjection(earlier, events[n]) else Ok(earlier)
  }

  /** The event that records the genesis state. */
  predicate Records(event: Event, genesis: PuzzleState) {
    && event.body.branch == genesis.branch
    && event.body.payload.InitialStateCreated? && event.body.payload.stateHash == OfState(genesis)
  }

  function ReplayProjection(genesis: PuzzleState, events: seq<Event>): Result<Projection> {
    if !Intact(events) then Err(StateConflict)
    else if genesis.sequenceNo >= |events| || !Records(events[genesis.sequenceNo], genesis) then Err(StateConflict)
    else Fold(genesis, events)
  }

  /** `replay_projection`: the chain is verified first; every failure reads as a conflict here except
      those a reduction raises. */
  method Replay(genesis: PuzzleState, events: seq<Event>) returns (r: Result<Projection>)
    ensures r == ReplayProjection(genesis, events)
  {
    var verification := VerifyChain(events);
    if !verification.Valid() {
      return Err(StateConflict);
    }
    // In a contiguous chain the event with the genesis sequence number stands at that position.
    if genesis.sequenceNo >= |events| || !Records(events[genesis.sequenceNo], genesis) {
      return Err(StateConflict);
    }
    hide Intact, FaultAt, Fold, ReduceProjection, Projection.Valid;
    var projection := Create(genesis);
    FoldStarts(genesis, events);
    for i := 0 to |events|
      invariant projection.Valid()
      invariant Fold(genesis, events[..i]) == Ok(projection)
    {
      FoldContinues(genesis, events, i);
      if events[i].body.sequenceNo > genesis.sequenceNo {
        var reduced := ReduceProjection(projection, events[i]);
        if reduced.Err? {
          FoldFails(genesis, events, i + 1, reduced.error);
          return Err(reduced.error);
        }
        projection := reduced.value;
      }
    }
    assert events[..|events|] == events;
    return Ok(projection);
  }

  lemma {:induction false} FoldStarts(genesis: PuzzleState, events: seq<Event>)
    ensures Create(genesis).Valid() && Fold(genesis, events[..0]) == Ok(Create(genesis))
  {
  }

  lemma {:induction false} FoldContinues(genesis: PuzzleState, events: seq<Event>, i: nat)
    requires i < |events| && Fold(genesis, events[..i]).Ok?
    ensures Fold(genesis, events[..i + 1])
      == if events[i].body.sequenceNo > genesis.sequenceNo
         then ReduceProjection(Fold(genesis, events[..i]).value, events[i]) else Fold(genesis, events[..i])
  {
    hide ReduceProjection, Projection.Valid;
    assert events[..i + 1][..i] == events[..i];
  }

  lemma {:induction false} FoldFails(genesis: PuzzleState, events: seq<Event>, i: nat, error: Error)
    requires i <= |events| && Fold(genesis, events[..i]) == Err(error)
    ensures Fold(genesis, events) == Err(error)
    decreases |events| - i
  {
    if i < |events| {
      assert events[..i + 1][..i] == events[..i];
      FoldFails(genesis, events, i + 1, error);
    } else {
      assert events[..i] == events;
    }
  }
}

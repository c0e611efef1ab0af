/** What every reachable branch projection keeps, and what its branches mean. */
module BranchTheorems {
  import opened Prelude
  import opened Domain
  import opened State
  import opened Events
  import opened Reducer
  import opened Solutions
  import opened Encoding
  import opened Branches

  type BranchRecords = map<BranchId, BranchRecord>

  /** Parents are retained and were opened before their children, so parent links never cycle. */
  predicate Descending(records: BranchRecords) {
    forall b :: b in records && records[b].fork.Some? ==> ParentBefore(records, b)
  }

  predicate ParentBefore(records: BranchRecords, b: BranchId)
    requires b in records && records[b].fork.Some?
  {
    var q := records[b].fork.value.parent;
    q in records && records[q].openedAt < records[b].openedAt
  }

  /** A branch and its ancestors. */
  function Chain(records: BranchRecords, b: BranchId): (chain: set<BranchId>)
    requires Descending(records) && b in records
    ensures b in chain
    decreases records[b].openedAt
  {
    if records[b].fork.None? then {b}
    else
      assert ParentBefore(records, b);
      {b} + Chain(records, records[b].fork.value.parent)
  }

  lemma {:induction false} ChainIsOlder(records: BranchRecords, b: BranchId)
    requires Descending(records) && b in records
    ensures forall c :: c in Chain(records, b) ==>
      c in records && (c == b || records[c].openedAt < records[b].openedAt)
    ensures forall c :: c in Chain(records, b) && records[c].fork.Some? ==> records[c].fork.value.parent in Chain(records, b)
    decreases records[b].openedAt
  {
    if records[b].fork.Some? {
      assert ParentBefore(records, b);
      ChainIsOlder(records, records[b].fork.value.parent);
    }
  }

  /** `more` retains every branch of `records` with its origin. */
  ghost predicate Retains(records: BranchRecords, more: BranchRecords) {
    forall b :: b in records ==> b in more && more[b].fork == records[b].fork && more[b].openedAt == records[b].openedAt
  }

  lemma {:induction false} ChainIsLocal(records: BranchRecords, more: BranchRecords, b: BranchId)
    requires Descending(records) && Descending(more) && Retains(records, more) && b in records
    ensures Chain(more, b) == Chain(records, b)
    decreases records[b].openedAt
  {
    if records[b].fork.Some? {
      assert ParentBefore(records, b);
      ChainIsLocal(records, more, records[b].fork.value.parent);
    }
  }

  // ----- the invariant -----

  type BranchStates = map<BranchId, PuzzleState>

  /** The parent is open and still holds the state the branch was opened from. */
  predicate AwaitedByParent(records: BranchRecords, states: BranchStates, b: BranchId)
    requires b in records && records[b].fork.Some?
  {
    var q := records[b].fork.value.parent;
    q in records && q in states && records[q].status.Open? && records[b].openedFrom == OfState(states[q])
  }

  ghost predicate Dated(records: BranchRecords, sequenceNo: nat) {
    forall b :: b in records ==> records[b].openedAt <= sequenceNo
  }

  /** The branches never closed are exactly the active one and its ancestors. */
  ghost predicate OpenLine(records: BranchRecords, active: BranchId)
    requires Descending(records) && active in records
  {
    forall b :: b in records ==> (records[b].closedAt.None? <==> b in Chain(records, active))
  }

  /** Every ancestor of the active branch waits, unchanged, for its child. */
  ghost predicate Waiting(records: BranchRecords, states: BranchStates, active: BranchId)
    requires Descending(records) && active in records
  {
    forall b :: b in Chain(records, active) && b in records && records[b].fork.Some? ==> AwaitedByParent(records, states, b)
  }

  ghost predicate OneRoot(records: BranchRecords, root: BranchId) {
    root in records && forall b :: b in records ==> (records[b].fork.None? <==> b == root)
  }

  ghost predicate Sane(p: Projection, root: BranchId) {
    && p.Valid() && Descending(p.records) && Dated(p.records, p.sequenceNo)
    && OpenLine(p.records, p.active) && Waiting(p.records, p.states, p.active) && OneRoot(p.records, root)
  }

  lemma {:induction false} CreatedIsSane(genesis: PuzzleState)
    ensures Sane(Create(genesis), genesis.branch)
  {
  }

  // ----- opening a branch -----

  lemma {:induction false} ForkDescends(records: BranchRecords, active: BranchId, b: BranchId, r: BranchRecord)
    requires Descending(records) && active in records && b !in records
    requires r.fork.Some? && r.fork.value.parent == active && records[active].openedAt < r.openedAt
    ensures var more := records[b := r];
      && Descending(more) && Retains(records, more)
      && Chain(more, active) == Chain(records, active)
      && Chain(more, b) == {b} + Chain(records, active)
      && b !in Chain(records, active)
  {
    var more := records[b := r];
    forall c | c in more && more[c].fork.Some? ensures ParentBefore(more, c) {
      if c != b {
        assert ParentBefore(records, c);
      }
    }
    ChainIsLocal(records, more, active);
    ChainIsOlder(records, active);
  }

  lemma {:induction false} ForkWaits(records: BranchRecords, states: BranchStates, active: BranchId, b: BranchId,
      r: BranchRecord, child: PuzzleState)
    requires Descending(records) && active in records && active in states && b !in records && b !in states
    requires r.fork.Some? && r.fork.value.parent == active && records[active].openedAt < r.openedAt && r.closedAt.None?
    requires OpenLine(records, active) && Waiting(records, states, active)
    requires records[active].status.Open? && r.openedFrom == OfState(states[active])
    ensures Descending(records[b := r])
    ensures OpenLine(records[b := r], b) && Waiting(records[b := r], states[b := child], b)
  {
    hide Chain, Descending, Retains;
    var more := records[b := r];
    ForkDescends(records, active, b, r);
    forall c | c in Chain(more, b) && c in more && more[c].fork.Some? ensures AwaitedByParent(more, states[b := child], c) {
      if c != b {
        assert AwaitedByParent(records, states, c);
      }
    }
  }

  lemma {:induction false} OpeningKeepsSane(p: Projection, root: BranchId, event: Event)
    requires Sane(p, root) && event.body.payload.BranchOpened? && event.body.sequenceNo > p.sequenceNo
    requires OpenBranch(p, event).Ok?
    ensures Sane(OpenBranch(p, event).value, root)
    ensures Retains(p.records, OpenBranch(p, event).value.records)
  {
    hide Derive, Fits, Descending, OpenLine, Waiting, Chain;
    var next := OpenBranch(p, event).value;
    var b := event.body.branch;
    assert p.records[p.active].openedAt <= p.sequenceNo;
    ForkDescends(p.records, p.active, b, next.records[b]);
    ForkWaits(p.records, p.states, p.active, b, next.records[b], next.states[b]);
  }

  // ----- updating the active branch -----

  /** Updating the active branch's record and state in place disturbs no chain, and no ancestor. */
  lemma {:induction false} UpdateKeepsChains(records: BranchRecords, states: BranchStates, active: BranchId,
      r: BranchRecord, state: PuzzleState, c: BranchId)
    requires Descending(records) && active in records && active in states && c in Chain(records, active) && c in records
    requires
      && r.fork == records[active].fork
      && r.openedAt == records[active].openedAt
      && r.openedFrom == records[active].openedFrom
    requires Waiting(records, states, active)
    ensures Descending(records[active := r]) && Retains(records, records[active := r])
    ensures Chain(records[active := r], c) == Chain(records, c)
    ensures Waiting(records[active := r], states[active := state], c)
  {
    var more := records[active := r];
    forall d | d in more && more[d].fork.Some? ensures ParentBefore(more, d) {
      assert ParentBefore(records, d);
    }
    ChainIsLocal(records, more, c);
    ChainIsOlder(records, active);
    ChainStaysInside(records, active, c);
    forall d | d in Chain(more, c) && d in more && more[d].fork.Some? ensures AwaitedByParent(more, states[active := state], d) {
      assert AwaitedByParent(records, states, d) && ParentBefore(records, d);
      assert d == active || records[d].openedAt < records[active].openedAt;
    }
  }

  lemma {:induction false} ChainStaysInside(records: BranchRecords, b: BranchId, c: BranchId)
    requires Descending(records) && b in records && c in Chain(records, b) && c in records
    ensures Chain(records, c) <= Chain(records, b)
    decreases records[b].openedAt
  {
    if c != b {
      assert ParentBefore(records, b);
      ChainStaysInside(records, records[b].fork.value.parent, c);
    }
  }

  lemma {:induction false} ParentInChain(records: BranchRecords, b: BranchId)
    requires Descending(records) && b in records && records[b].fork.Some?
    ensures var q := records[b].fork.value.parent;
      && q in records && q in Chain(records, b) && b !in Chain(records, q)
      && Chain(records, b) == {b} + Chain(records, q)
  {
    assert ParentBefore(records, b);
    ChainIsOlder(records, records[b].fork.value.parent);
  }

  lemma {:induction false} ClosingKeepsSane(p: Projection, root: BranchId, event: Event)
    requires Sane(p, root) && event.body.payload.BranchClosed? && event.body.sequenceNo > p.sequenceNo
    requires CloseBranch(p, event).Ok?
    ensures Sane(CloseBranch(p, event).value, root)
    ensures Retains(p.records, CloseBranch(p, event).value.records)
  {
    hide Fits, Descending, Waiting, Chain, PuzzleState.Solved;
    var next := CloseBranch(p, event).value;
    var b, q := p.active, next.active;
    ParentInChain(p.records, b);
    assert p.states[b := p.states[b]] == p.states;
    UpdateKeepsChains(p.records, p.states, b, next.records[b], p.states[b], q);
  }

  lemma {:induction false} MutatingKeepsSane(p: Projection, root: BranchId, event: Event)
    requires Sane(p, root) && IsMutation(event.body.payload) && event.body.sequenceNo > p.sequenceNo
    requires MutateBranch(p, event).Ok?
    ensures Sane(MutateBranch(p, event).value, root)
    ensures Retains(p.records, MutateBranch(p, event).value.records)
  {
    hide Fits, Reduce, OriginDisclosed, Descending, Waiting, Chain;
    var next := MutateBranch(p, event).value;
    ChainIsOlder(p.records, p.active);
    UpdateKeepsChains(p.records, p.states, p.active, next.records[p.active], next.states[p.active], p.active);
  }

  /** Every accepted event keeps the projection sane and every branch's origin. */
  lemma {:induction false} StepKeepsSane(p: Projection, root: BranchId, event: Event)
    requires Sane(p, root) && ReduceProjection(p, event).Ok?
    ensures Sane(ReduceProjection(p, event).value, root)
    ensures Retains(p.records, ReduceProjection(p, event).value.records)
  {
    hide OpenBranch, CloseBranch, MutateBranch, Fits;
    var payload := event.body.payload;
    if payload.BranchOpened? {
      OpeningKeepsSane(p, root, event);
    } else if payload.BranchClosed? {
      ClosingKeepsSane(p, root, event);
    } else if IsMutation(payload) {
      MutatingKeepsSane(p, root, event);
    }
  }

  /** Over every run: never-closed branches are the active branch and its ancestors, the ancestors are open
      and hold the state their child was opened from, and parent links descend to the root. */
  lemma {:induction false} FoldIsSane(genesis: PuzzleState, events: seq<Event>)
    requires Fold(genesis, events).Ok?
    ensures Sane(Fold(genesis, events).value, genesis.branch)
  {
    hide Sane, ReduceProjection;
    if events == [] {
      CreatedIsSane(genesis);
    } else {
      var n := |events| - 1;
      FoldIsSane(genesis, events[..n]);
      if events[n].body.sequenceNo > genesis.sequenceNo {
        StepKeepsSane(Fold(genesis, events[..n]).value, genesis.branch, events[n]);
      }
    }
  }

  // ----- what branches mean -----

  /** `a` agrees with every assumption on the branch's chain; opaque assumptions place no restriction. */
  ghost predicate Meets(records: BranchRecords, b: BranchId, a: Assignment)
    requires Descending(records) && b in records
  {
    forall c :: c in Chain(records, b) && c in records && records[c].fork.Some? ==> GivenHolds(records[c].fork.value.assumption, a)
  }

  ghost predicate MeansAssumptions(puzzle: Puzzle, genesis: PuzzleState, p: Projection, b: BranchId)
    requires puzzle.WellFormed() && Descending(p.records) && b in p.records && b in p.states
  {
    && p.states[b].candidates.Keys == puzzle.variables.Keys
    && (p.records[b].fork.Some? && !p.records[b].fork.value.assumption.OtherAtom? ==>
          p.records[b].fork.value.assumption.variable in puzzle.variables)
    && forall a :: Solution(puzzle, p.states[b], a) <==> Solution(puzzle, genesis, a) && Meets(p.records, b, a)
  }

  ghost predicate Meaningful(puzzle: Puzzle, genesis: PuzzleState, p: Projection)
    requires puzzle.WellFormed() && p.Valid() && Descending(p.records)
  {
    forall b :: b in p.records ==> MeansAssumptions(puzzle, genesis, p, b)
  }

  /** Every claim a mutation makes is entailed by the state it starts from. */
  ghost predicate Justified(puzzle: Puzzle, p: Projection, event: Event)
    requires puzzle.WellFormed() && p.Valid()
  {
    IsMutation(event.body.payload) ==>
      forall atom :: atom in Claims(event.body.payload) ==> Entails(puzzle, p.states[p.active], atom)
  }

  lemma {:induction false} AssumingMeans(candidates: CandidateDomains, assumption: Atom, a: Assignment)
    requires Assume(candidates, assumption).Ok? && a.Keys == candidates.Keys
    ensures Assume(candidates, assumption).value.Keys == candidates.Keys
    ensures !assumption.OtherAtom? ==> assumption.variable in candidates
    ensures Drawn(Assume(candidates, assumption).value, a) <==> Drawn(candidates, a) && GivenHolds(assumption, a)
  {
    assert Assume(candidates, assumption) == ApplyGiven(candidates, assumption);
    GivenMeans(candidates, assumption, a);
  }

  /** A new branch starts with exactly its parent's solutions that meet the assumption. */
  lemma {:induction false} DerivedMeans(puzzle: Puzzle, parent: PuzzleState, event: Event, a: Assignment)
    requires puzzle.WellFormed() && event.body.payload.BranchOpened? && Derive(parent, event).Ok?
    requires parent.candidates.Keys == puzzle.variables.Keys
    ensures Derive(parent, event).value.candidates.Keys == puzzle.variables.Keys
    ensures var assumption := event.body.payload.assumption;
      !assumption.OtherAtom? ==> assumption.variable in puzzle.variables
    ensures Solution(puzzle, Derive(parent, event).value, a)
      <==> Solution(puzzle, parent, a) && GivenHolds(event.body.payload.assumption, a)
  {
    hide ConstraintHolds, SingletonAtoms, PuzzleState.Structural, Assume;
    var assumption := event.body.payload.assumption;
    var child := Derive(parent, event).value;
    assert child.active == parent.active && Assume(parent.candidates, assumption) == Ok(child.candidates);
    var any := map v | v in parent.candidates :: 0;
    AssumingMeans(parent.candidates, assumption, any);
    if a.Keys == parent.candidates.Keys {
      AssumingMeans(parent.candidates, assumption, a);
    }
  }

  lemma {:induction false} OtherBranchesKeepMeaning(puzzle: Puzzle, genesis: PuzzleState, p: Projection,
      next: Projection, b: BranchId)
    requires
      && puzzle.WellFormed()
      && Descending(p.records)
      && Descending(next.records)
      && Retains(p.records, next.records)
    requires b in p.records && b in p.states && b in next.states
    requires MeansAssumptions(puzzle, genesis, p, b)
    requires next.states[b].candidates.Keys == puzzle.variables.Keys
    requires forall a :: Solution(puzzle, next.states[b], a) <==> Solution(puzzle, p.states[b], a)
    ensures MeansAssumptions(puzzle, genesis, next, b)
  {
    hide Solution;
    ChainIsLocal(p.records, next.records, b);
    ChainIsOlder(p.records, b);
    forall a ensures Meets(next.records, b, a) <==> Meets(p.records, b, a) {
      forall c | c in Chain(p.records, b) ensures c in p.records && c in next.records && next.records[c].fork == p.records[c].fork {
      }
    }
  }

  lemma {:induction false} NewBranchMeans(puzzle: Puzzle, genesis: PuzzleState, p: Projection, root: BranchId,
      event: Event, next: Projection)
    requires puzzle.WellFormed() && Sane(p, root) && Meaningful(puzzle, genesis, p) && Sane(next, root)
    requires
      && event.body.payload.BranchOpened?
      && event.body.sequenceNo > p.sequenceNo
      && OpenBranch(p, event) == Ok(next)
    requires event.body.branch in next.records && event.body.branch in next.states
    ensures MeansAssumptions(puzzle, genesis, next, event.body.branch)
  {
    hide Solution, Derive, Fits, Consistent, Dated, OpenLine, Waiting, OneRoot, GivenHolds;
    OpeningKeepsSane(p, root, event);
    var b := event.body.branch;
    var parent := p.states[p.active];
    assert MeansAssumptions(puzzle, genesis, p, p.active);
    ChainIsLocal(p.records, next.records, p.active);
    ChainIsOlder(p.records, p.active);
    assert Chain(next.records, b) == {b} + Chain(p.records, p.active);
    forall a ensures Solution(puzzle, next.states[b], a) <==> Solution(puzzle, genesis, a) && Meets(next.records, b, a) {
      DerivedMeans(puzzle, parent, event, a);
      ChildMeets(p.records, next.records, p.active, b, a);
    }
    DerivedMeans(puzzle, parent, event, map[]);
  }

  lemma {:induction false} ChildMeets(records: BranchRecords, more: BranchRecords, parent: BranchId, b: BranchId,
      a: Assignment)
    requires
      && Descending(records)
      && Descending(more)
      && Retains(records, more)
      && parent in records
      && b !in records
      && b in more
    requires more[b].fork.Some? && more[b].fork.value.parent == parent
    ensures Meets(more, b, a) <==> Meets(records, parent, a) && GivenHolds(more[b].fork.value.assumption, a)
  {
    hide GivenHolds;
    ChainIsLocal(records, more, parent);
    ChainIsOlder(records, parent);
    var chain := Chain(records, parent);
    assert ParentBefore(more, b);
    assert Chain(more, b) == {b} + chain;
    if Meets(more, b, a) {
      forall c | c in chain && records[c].fork.Some? ensures GivenHolds(records[c].fork.value.assumption, a) {
        assert c in Chain(more, b) && more[c].fork == records[c].fork;
      }
      assert b in Chain(more, b);
    }
    if Meets(records, parent, a) && GivenHolds(more[b].fork.value.assumption, a) {
      forall c | c in Chain(more, b) && more[c].fork.Some? ensures GivenHolds(more[c].fork.value.assumption, a) {
        if c != b {
          assert c in chain;
        }
      }
    }
  }

  /** A justified mutation changes no solution of its branch. */
  lemma {:induction false} MutationKeepsSolutions(puzzle: Puzzle, p: Projection, event: Event)
    requires puzzle.WellFormed() && p.Valid() && Justified(puzzle, p, event) && IsMutation(event.body.payload)
    requires p.states[p.active].candidates.Keys == puzzle.variables.Keys && MutateBranch(p, event).Ok?
    ensures SameSolutions(puzzle, p.states[p.active], MutateBranch(p, event).value.states[p.active])
    ensures MutateBranch(p, event).value.states[p.active].candidates.Keys == puzzle.variables.Keys
  {
    hide Solution, Fits, Entails;
    EntailedReductionKeepsSolutions(puzzle, p.states[p.active], event);
  }

  /** One justified event keeps the meaning of every branch. */
  lemma {:induction false} StepKeepsMeaning(puzzle: Puzzle, genesis: PuzzleState, p: Projection, root: BranchId,
      event: Event)
    requires puzzle.WellFormed() && Sane(p, root) && Meaningful(puzzle, genesis, p) && Justified(puzzle, p, event)
    requires ReduceProjection(p, event).Ok?
    ensures Sane(ReduceProjection(p, event).value, root)
    ensures Meaningful(puzzle, genesis, ReduceProjection(p, event).value)
  {
    hide Solution, Fits, Entails, MeansAssumptions, Justified, OpenBranch, MutateBranch, CloseBranch, Dated, OpenLine,
      Waiting, OneRoot;
    StepKeepsSane(p, root, event);
    var next := ReduceProjection(p, event).value;
    forall b | b in next.records ensures MeansAssumptions(puzzle, genesis, next, b) {
      BranchKeepsMeaning(puzzle, genesis, p, root, event, b);
    }
  }

  lemma {:induction false} BranchKeepsMeaning(puzzle: Puzzle, genesis: PuzzleState, p: Projection, root: BranchId,
      event: Event, b: BranchId)
    requires puzzle.WellFormed() && Sane(p, root) && Meaningful(puzzle, genesis, p) && Justified(puzzle, p, event)
    requires ReduceProjection(p, event).Ok? && Sane(ReduceProjection(p, event).value, root)
    requires Retains(p.records, ReduceProjection(p, event).value.records)
    requires b in ReduceProjection(p, event).value.records
    ensures MeansAssumptions(puzzle, genesis, ReduceProjection(p, event).value, b)
  {
    hide Solution, Fits, Entails, MeansAssumptions, Justified, Derive, Reduce, Dated, OpenLine, Waiting, OneRoot,
      OriginDisclosed;
    var next := ReduceProjection(p, event).value;
    if b !in p.records {
      NewBranchMeans(puzzle, genesis, p, root, event, next);
    } else {
      assert MeansAssumptions(puzzle, genesis, p, b);
      MeaningHasKeys(puzzle, genesis, p, b);
      if IsMutation(event.body.payload) && b == p.active {
        MutationKeepsSolutions(puzzle, p, event);
      }
      OtherBranchesKeepMeaning(puzzle, genesis, p, next, b);
    }
  }

  lemma {:induction false} MeaningHasKeys(puzzle: Puzzle, genesis: PuzzleState, p: Projection, b: BranchId)
    requires puzzle.WellFormed() && Descending(p.records) && b in p.records && b in p.states
    requires MeansAssumptions(puzzle, genesis, p, b)
    ensures p.states[b].candidates.Keys == puzzle.variables.Keys
  {
  }

  /** Each mutation in the stream is justified where it is applied. */
  ghost predicate JustifiedRun(puzzle: Puzzle, genesis: PuzzleState, events: seq<Event>)
    requires puzzle.WellFormed()
  {
    forall i :: 0 <= i < |events| && events[i].body.sequenceNo > genesis.sequenceNo && Fold(genesis, events[..i]).Ok? ==>
      Justified(puzzle, Fold(genesis, events[..i]).value, events[i])
  }

  lemma {:induction false} JustifiedPrefix(puzzle: Puzzle, genesis: PuzzleState, events: seq<Event>)
    requires puzzle.WellFormed() && events != [] && JustifiedRun(puzzle, genesis, events)
    ensures JustifiedRun(puzzle, genesis, events[..|events| - 1])
  {
    var shorter := events[..|events| - 1];
    forall i | 0 <= i < |shorter| ensures shorter[..i] == events[..i] && shorter[i] == events[i] {
    }
  }

  /** Over every justified run, the solutions of each retained branch are exactly the genesis solutions that
      meet the assumptions on its chain. */
  lemma {:induction false} BranchesMeanAssumptions(puzzle: Puzzle, genesis: PuzzleState, events: seq<Event>)
    requires puzzle.WellFormed() && genesis.candidates.Keys == puzzle.variables.Keys
    requires JustifiedRun(puzzle, genesis, events) && Fold(genesis, events).Ok?
    ensures Sane(Fold(genesis, events).value, genesis.branch)
    ensures Meaningful(puzzle, genesis, Fold(genesis, events).value)
  {
    hide Sane, Meaningful, ReduceProjection, Justified, Projection.Valid;
    if events == [] {
      CreatedIsSane(genesis);
      CreatedIsMeaningful(puzzle, genesis);
    } else {
      var n := |events| - 1;
      JustifiedPrefix(puzzle, genesis, events);
      BranchesMeanAssumptions(puzzle, genesis, events[..n]);
      if events[n].body.sequenceNo > genesis.sequenceNo {
        StepKeepsMeaning(puzzle, genesis, Fold(genesis, events[..n]).value, genesis.branch, events[n]);
      }
    }
  }

  lemma {:induction false} CreatedIsMeaningful(puzzle: Puzzle, genesis: PuzzleState)
    requires puzzle.WellFormed() && genesis.candidates.Keys == puzzle.variables.Keys
    requires Sane(Create(genesis), genesis.branch)
    ensures Meaningful(puzzle, genesis, Create(genesis))
  {
    hide Solution;
  }

  /** Proof by contradiction: a branch without solutions refutes its assumption in the parent. */
  lemma {:induction false} EmptyBranchRefutes(puzzle: Puzzle, genesis: PuzzleState, p: Projection, root: BranchId,
      b: BranchId)
    requires puzzle.WellFormed() && Sane(p, root) && Meaningful(puzzle, genesis, p)
    requires b in p.records && p.records[b].fork.Some? && !p.records[b].fork.value.assumption.OtherAtom?
    requires !HasSolution(puzzle, p.states[b])
    ensures var fork := p.records[b].fork.value;
      fork.parent in p.states && Entails(puzzle, p.states[fork.parent], Opposite(fork.assumption))
  {
    hide Fits, Dated, OpenLine, Waiting, OneRoot, Solution;
    var fork := p.records[b].fork.value;
    var q := fork.parent;
    ParentInChain(p.records, b);
    assert MeansAssumptions(puzzle, genesis, p, b) && MeansAssumptions(puzzle, genesis, p, q);
    forall a | Solution(puzzle, p.states[q], a) ensures AtomHolds(Opposite(fork.assumption), a) {
      assert Meets(p.records, q, a);
      assert Meets(p.records, b, a) <==> GivenHolds(fork.assumption, a);
      assert !Solution(puzzle, p.states[b], a);
      SolutionNames(puzzle, p.states[q], a);
    }
  }

  lemma {:induction false} SolutionNames(puzzle: Puzzle, state: PuzzleState, a: Assignment)
    requires puzzle.WellFormed() && Solution(puzzle, state, a)
    ensures a.Keys == puzzle.variables.Keys
  {
  }
}

/** What the shipped rules and backends can prove of a clean draft, and a draft they cannot. */
module DraftProofs {
  import opened Prelude
  import opened Domain
  import opened State
  import opened Solutions
  import opened LogicGrid
  import opened Templates
  import opened Drafts
  import opened DraftTheorems
  import opened DraftGenesis
  import opened DraftLimits
  import Events
  import Coordinator
  import Rules
  import Engine
  import EngineTheorems
  import Builder
  import LogicGridRules
  import LogicGridSoundness
  import LogicGridDiscovery
  import L = LogicGridTables
  import R = LogicGridRuns
  import B = SymbolicBackend
  import T = CpSat

  /** There are solvers set up as the builder sets them up: ideal ones behind both backends, and names that tell everything apart. */
  lemma {:induction false} SolversExist(draft: Draft, encode: Encoding, policy: Rules.Policy, context: Engine.Context)
    returns (solver: Engine.Solver, naming: LogicGridRules.Naming)
    requires Clean(draft) && Injective(encode)
    ensures R.SetUp(solver, CompileDraft(draft, encode), naming, B.Ideal, T.Enumerate)
  {
    hide CompileDraft, Clean, LogicGridRules.GridRules, LogicGridDiscovery.Distinguishes, Valid, Puzzle.WellFormed;
    var spec := CompileDraft(draft, encode);
    CompiledIsValid(draft, encode);
    CompiledShape(draft, encode);
    R.IdealIsDecisive();
    L.EnumerationIsDecisive();
    naming := LogicGridDiscovery.NamingsExist();
    solver := Engine.Solver(spec.puzzle, LogicGridRules.GridRules(spec, naming),
                            [Coordinator.SymbolicProofBackend(B.Ideal), Coordinator.TableProofBackend(T.Enumerate)],
                            policy, context);
  }

  /** What the solve and the builder's proof come to: below the limit, all attempts are proved and the
      assessment is that the solution is unique, or that the run stalled for want of a rule or reached its
      limit; above it, everything discovered at genesis is rejected and the run stalls. */
  ghost predicate FollowsLimits(solver: Engine.Solver, spec: GridSpec, genesis: PuzzleState, maxSteps: int,
      tabulated: bool)
    requires Shaped(spec) && spec.puzzle.WellFormed() && solver.puzzle == spec.puzzle
  {
    var run := Engine.Outcome(solver, genesis, maxSteps);
    var proof := Builder.Proof(solver, spec, genesis, maxSteps);
    && run.Ok? && proof.Ok?
    && if tabulated then
         && (forall i :: 0 <= i < |run.value.attempts| ==> run.value.attempts[i].status == Coordinator.CrossVerified)
         && (proof.value.Unique? || proof.value == Builder.Unproven(Engine.Stalled)
             || proof.value == Builder.Unproven(Engine.LimitReached))
       else
         && (forall i :: 0 <= i < |run.value.attempts| ==> run.value.attempts[i].status == Coordinator.Rejected)
         && EngineTheorems.TriedAll(solver, genesis, run.value.attempts)
         && proof.value == Builder.Unproven(Engine.Stalled)
  }

  /** Proving a clean draft with a solution: what each clue leaves open decides how it goes. */
  lemma {:induction false} DraftProofFollowsLimits(solver: Engine.Solver, draft: Draft, encode: Encoding,
      spec: GridSpec,
      naming: LogicGridRules.Naming, symbolic: B.Solver, tables: T.CpSolver, genesis: PuzzleState, stateId: Identifier,
      branch: Identifier, n: nat, maxSteps: int)
    requires spec.puzzle.WellFormed() && InitialState(spec.puzzle, stateId, branch, n) == Ok(genesis)
    requires HasSolution(spec.puzzle, genesis)
    requires Clean(draft) && Injective(encode) && spec == CompileDraft(draft, encode)
    requires Shaped(spec) && solver.puzzle == spec.puzzle && maxSteps > 0
    requires R.SetUp(solver, spec, naming, symbolic, tables)
    ensures FollowsLimits(solver, spec, genesis, maxSteps, Tabulated(draft))
  {
    hide Clean, CompileDraft, InitialState, HasSolution, Tabulated, Engine.Outcome, EngineTheorems.TriedAll, L.WithinLimits,
      Valid, LogicGridRules.GridRules, LogicGridDiscovery.Distinguishes, CleanListing, Accepts, Anchor, Shaped, Puzzle.WellFormed,
      Coordinator.Trusted, B.Truthful, T.Truthful;
    DraftLimitsAreExact(draft, encode, stateId, branch, n);
    R.GridSolveFollowsLimits(solver, spec, naming, symbolic, tables, stateId, branch, n, maxSteps);
    Coordinator.ShippedBackendsAreTrusted(symbolic, tables);
    if Engine.Outcome(solver, genesis, maxSteps).value.status == Engine.Solved {
      Builder.ProofIsRight(solver, spec, genesis, maxSteps, stateId, branch, n);
    }
  }

  // ----- a draft over the limit -----

  function WideKey(j: nat): string
    requires j < 8
  {
    "i" + [Digit(j)]
  }

  function WideCategory(key: string): DraftCategory {
    DraftCategory(key, seq(8, j requires 0 <= j < 8 => Item(WideKey(j), None)))
  }

  function Link(left: string, right: string, j: nat): Template
    requires j < 8
  {
    Association(ItemRef(left, WideKey(j)), ItemRef(right, WideKey(j)), true)
  }

  /** Three categories of eight items. The first clue places one item; the second says that some pair among
      four pairs of free items belongs together. */
  function WideDraft(): Draft {
    Draft("wide", 1, [WideCategory("a"), WideCategory("b"), WideCategory("c")], "a",
          [DraftClue("first", Link("a", "b", 0)),
           DraftClue("some", AnyOneOf(Pairs()))])
  }

  lemma {:induction false} WideKeysDiffer(i: nat, j: nat)
    requires i < 8 && j < 8 && WideKey(i) == WideKey(j)
    ensures i == j
  {
    assert WideKey(i)[1] == WideKey(j)[1];
  }

  lemma {:induction false} WideCategoryIsClean(key: string)
    requires ValidKey(key)
    ensures CleanCategory(WideCategory(key), 8)
  {
    var items := WideCategory(key).items;
    forall i, j | 0 <= i < j < |items| ensures items[i].key != items[j].key {
      if items[i].key == items[j].key {
        WideKeysDiffer(i, j);
      }
    }
  }

  lemma {:induction false} WideLink(i: nat, k: nat, j: nat)
    requires i < k < 3 && j < 8
    ensures var cs := WideDraft().categories;
      && cs[i].key != cs[k].key
      && RefAt(cs, i, j) == ItemRef(cs[i].key, WideKey(j)) && HasItem(cs, RefAt(cs, i, j))
      && RefAt(cs, k, j) == ItemRef(cs[k].key, WideKey(j)) && HasItem(cs, RefAt(cs, k, j))
  {
    assert "a"[0] != "b"[0] && "b"[0] != "c"[0] && "a"[0] != "c"[0];
  }

  /** The pairs of the second clue. */
  function Pairs(): (ts: seq<Template>)
    ensures |ts| == 4 && forall j :: 0 <= j < 4 ==> ts[j] == Link("b", "c", j)
  {
    seq(4, j requires 0 <= j < 4 => Link("b", "c", j))
  }

  lemma {:induction false} FirstClueIsClean()
    requires HasAnchor(WideDraft())
    ensures CleanClue(WideDraft(), WideDraft().clues[0])
  {
    hide HasItem, AnyNode, ValidKey;
    ShortKeys();
    WideLink(0, 1, 0);
    LinksAreIdleFree([Link("a", "b", 0)]);
  }

  lemma {:induction false} SecondClueIsClean()
    requires HasAnchor(WideDraft())
    ensures CleanClue(WideDraft(), WideDraft().clues[1])
  {
    hide HasItem, AnyNode, ValidKey, Pairs;
    ShortKeys();
    assert "b"[0] != "c"[0];
    LinksAreIdleFree(Pairs());
    OperandsDecide(Pairs());
    MembersAreWellFormed(Pairs());
    forall ref | ref in RefsOfAll(Pairs()) ensures HasItem(WideDraft().categories, ref) {
      var j := RefComesFrom(Pairs(), ref);
      WideLink(1, 2, j);
    }
  }

  predicate HasAnchor(draft: Draft) {
    exists i :: 0 <= i < |draft.categories| && draft.categories[i].key == draft.anchorKey
  }

  lemma {:induction false} RefComesFrom(ts: seq<Template>, ref: ItemRef) returns (j: nat)
    requires ref in RefsOfAll(ts)
    ensures j < |ts| && ref in Refs(ts[j])
  {
    if ref in Refs(ts[0]) {
      j := 0;
    } else {
      j := RefComesFrom(ts[1..], ref);
      j := j + 1;
    }
  }

  lemma {:induction false} RefsOfMember(ts: seq<Template>, j: nat)
    requires j < |ts|
    ensures Refs(ts[j]) <= RefsOfAll(ts)
  {
    if j > 0 {
      RefsOfMember(ts[1..], j - 1);
    }
  }

  lemma {:induction false} MembersAreWellFormed(ts: seq<Template>)
    requires forall j :: 0 <= j < |ts| ==> WellFormed(ts[j])
    ensures AllWellFormed(ts)
  {
    if ts != [] {
      MembersAreWellFormed(ts[1..]);
    }
  }

  lemma {:induction false} ShortKeys()
    ensures ValidKey("first") && ValidKey("some") && ValidKey("wide") && ValidKey("a") && ValidKey("b") && ValidKey("c")
  {
  }

  lemma {:induction false} OperandsDecide(ts: seq<Template>)
    ensures AnyNode([AnyOneOf(ts)], true) == AnyNode(ts, true) && AnyNode([AnyOneOf(ts)], false) == AnyNode(ts, false)
  {
    assert [AnyOneOf(ts)][1..] == [];
    NothingLeft();
  }

  lemma {:induction false} WideDraftIsClean()
    ensures Clean(WideDraft())
  {
    hide CleanClue, CleanCategory, AnchorIndex, ValidKey, WideKey, Pairs;
    ShortKeys();
    WideKeysApart();
    WideCategoryIsClean("a");
    WideCategoryIsClean("b");
    WideCategoryIsClean("c");
    FirstClueIsClean();
    SecondClueIsClean();
  }

  lemma {:induction false} WideKeysApart()
    ensures HasAnchor(WideDraft()) && KeysDiffer(WideDraft().categories)
    ensures WideDraft().clues[0].key != WideDraft().clues[1].key
  {
    hide WideKey, Pairs;
    assert WideDraft().categories[0].key == WideDraft().anchorKey;
    assert "a"[0] != "b"[0] && "b"[0] != "c"[0] && "a"[0] != "c"[0];
    assert "first"[0] != "some"[0];
  }

  /** The eight free items of the second clue. */
  function WideRefs(): (refs: seq<ItemRef>)
    ensures |refs| == 8
  {
    seq(8, m requires 0 <= m < 8 => ItemRef(if m < 4 then "b" else "c", WideKey(m % 4)))
  }

  lemma {:induction false} WideRefsAreFree()
    ensures NoDuplicates(WideRefs())
    ensures Elements(WideRefs()) <= FreeItems(WideDraft(), WideDraft().clues[1].template)
  {
    hide AnyNode, Pairs;
    assert "a"[0] != "b"[0] && "b"[0] != "c"[0] && "a"[0] != "c"[0];
    var refs := WideRefs();
    forall m, k | 0 <= m < k < 8 ensures refs[m] != refs[k] {
      if refs[m] == refs[k] {
        WideKeysDiffer(m % 4, k % 4);
      }
    }
    forall m | 0 <= m < 8 ensures refs[m] in FreeItems(WideDraft(), AnyOneOf(Pairs())) {
      assert refs[m] in Refs(Pairs()[m % 4]);
      RefsOfMember(Pairs(), m % 4);
    }
  }

  lemma {:induction false} WideIsOverLimit()
    ensures Clean(WideDraft()) && !Tabulated(WideDraft())
  {
    WideDraftIsClean();
    hide Clean, FreeItems, Power, WideRefs;
    var draft := WideDraft();
    WideRefsAreFree();
    DistinctSize(WideRefs());
    SubsetSize(Elements(WideRefs()), FreeItems(draft, draft.clues[1].template));
    assert ItemsEach(draft) == 8;
    EightPowers(|FreeItems(draft, draft.clues[1].template)|);
    assert !ClueFits(draft, 1);
  }

  lemma {:induction false} EightPowers(k: nat)
    requires k >= 7
    ensures Power(8, k) > T.MAX_TABLE_COMBINATIONS
  {
    if k == 7 {
      assert Power(8, 3) == 512;
      assert Power(8, 5) == 64 * Power(8, 3);
      assert Power(8, 7) == 64 * Power(8, 5);
    } else {
      EightPowers(k - 1);
    }
  }

  /** Every item on the row of its number satisfies both clues. */
  lemma {:induction false} WideIsMeant(numbers: seq<Option<Number>>)
    ensures StraightIsMeant(WideDraft(), numbers)
  {
    hide AnyNode, Pairs;
    var draft := WideDraft();
    forall k, place: Placement |
      0 <= k < |draft.clues| && Straight(draft, place) && Refs(draft.clues[k].template) <= place.Keys
      ensures Means(draft.clues[k].template, place, numbers)
    {
      WideLink(0, 1, 0);
      WideLink(1, 2, 0);
      if k == 1 {
        RefsOfMember(Pairs(), 0);
        assert Means(Pairs()[0], place, numbers);
      }
    }
  }

  /** A settled item equated with an open one that can share its row gives the association rule a finding. */
  lemma {:induction false} LinkIsFound(spec: GridSpec, state: PuzzleState, m: nat, left: VariableId, right: VariableId,
      x: ValueId) returns (f: LogicGridRules.Finding)
    requires Shaped(spec) && m < |spec.puzzle.constraints| && spec.puzzle.constraints[m].ArithmeticConstraint?
    requires spec.puzzle.constraints[m].id in state.active
    requires spec.puzzle.constraints[m].expression == Comparison(Equal, VariableReference(left), VariableReference(right))
    requires left in state.candidates && right in state.candidates
    requires state.candidates[left] == {x} && x in state.candidates[right] && |state.candidates[right]| > 1
    ensures LogicGridRules.Findings(LogicGridRules.Association, spec, state).Ok?
    ensures f in LogicGridRules.Findings(LogicGridRules.Association, spec, state).value
  {
    hide LogicGridRules.EachUnshared, LogicGridRules.ValueAbsences, Anchor, Shaped;
    var c := spec.puzzle.constraints[m];
    f := LogicGridRules.Finding(AssignmentAtom(right, x), [AssignmentAtom(left, x)], c.id);
    assert state.candidates[right] * {x} == {x};
    assert |{x}| == 1 && TheOnly({x}) == x;
    assert f in LogicGridRules.Matches(c.id, right, left, state);
    LogicGridDiscovery.CollectedContains(
      spec.puzzle.constraints, LogicGridRules.Each(LogicGridRules.Association, state, Anchor(spec)), m, f);
  }

  lemma {:induction false} AssociationCompiles(left: ItemRef, right: ItemRef, t: Template,
      variables: map<ItemRef, VariableId>)
    requires t == Association(left, right, true) && Refs(t) <= variables.Keys
    ensures left in variables && right in variables
    ensures Compile(t, variables) == Comparison(Equal, VariableReference(variables[left]), VariableReference(variables[right]))
  {
    assert left in Refs(t) && right in Refs(t);
  }

  lemma {:induction false} LinkCompiles(draft: Draft, encode: Encoding, k: nat, left: ItemRef, right: ItemRef)
    requires Clean(draft) && k < |draft.clues| && draft.clues[k].template == Association(left, right, true)
    ensures left in VariablesOf(draft, encode) && right in VariablesOf(draft, encode)
    ensures CluesOf(draft, encode)[k].expression
      == Comparison(Equal, VariableReference(VariablesOf(draft, encode)[left]), VariableReference(VariablesOf(draft, encode)[right]))
  {
    hide Clean, VariablesOf;
    RefsAreKnown(draft, encode, k);
    var variables := VariablesOf(draft, encode);
    AssociationCompiles(left, right, draft.clues[k].template, variables);
    assert CluesOf(draft, encode)[k].expression == Compile(draft.clues[k].template, variables);
  }

  lemma {:induction false} AnchoredLinkIsFound(draft: Draft, encode: Encoding, genesis: PuzzleState, k: nat,
      left: ItemRef,
      right: ItemRef) returns (f: LogicGridRules.Finding)
    requires
      && Clean(draft)
      && Injective(encode)
      && k < |draft.clues|
      && draft.clues[k].template == Association(left, right, true)
    requires Shaped(CompileDraft(draft, encode))
    requires left.category == draft.anchorKey && right.category != draft.anchorKey
    requires Anchor(CompileDraft(draft, encode)) == ValuesOf(draft, encode, draft.categories[AnchorIndex(draft)], true)
    requires Opens(draft, encode, Anchor(CompileDraft(draft, encode)), genesis.candidates)
    requires genesis.active == (set c | c in CompileDraft(draft, encode).puzzle.constraints :: c.id)
    ensures LogicGridRules.Findings(LogicGridRules.Association, CompileDraft(draft, encode), genesis).Ok?
    ensures f in LogicGridRules.Findings(LogicGridRules.Association, CompileDraft(draft, encode), genesis).value
  {
    hide Clean, CompileDraft, VariablesOf, RowVariables, Shaped, Anchor, ValuesOf, LogicGridRules.Findings, CluesOf;
    var spec := CompileDraft(draft, encode);
    ClueAt(draft, encode, k);
    RefsAreKnown(draft, encode, k);
    CompiledAnchor(draft, encode);
    var i, j := RefStands(draft, encode, left);
    var h, l := RefStands(draft, encode, right);
    OpenAt(draft, encode, Anchor(spec), genesis.candidates, i, j);
    OpenAt(draft, encode, Anchor(spec), genesis.candidates, h, l);
    LinkCompiles(draft, encode, k, left, right);
    var c := spec.puzzle.constraints[|draft.categories| + k];
    assert c in spec.puzzle.constraints;
    assert ValueIds(Anchor(spec))[j] == Anchor(spec)[j].id;
    f := LinkIsFound(spec, genesis, |draft.categories| + k, VariablesOf(draft, encode)[left], VariablesOf(draft, encode)[right],
                     Anchor(spec)[j].id);
  }

  lemma {:induction false} OpenAt(draft: Draft, encode: Encoding, rows: seq<DomainValue>, candidates: CandidateDomains,
      i: nat, j: nat)
    requires Clean(draft) && Opens(draft, encode, rows, candidates)
    requires NoDuplicates(ValueIds(rows)) && |rows| == |draft.categories[AnchorIndex(draft)].items|
    requires i < |draft.categories| && j < |draft.categories[i].items|
    ensures RefAt(draft.categories, i, j) in VariablesOf(draft, encode) && j < |rows|
    ensures var v := VariablesOf(draft, encode)[RefAt(draft.categories, i, j)];
      && v in candidates
      && (draft.categories[i].key == draft.anchorKey ==> candidates[v] == {rows[j].id})
      && (draft.categories[i].key != draft.anchorKey ==>
            candidates[v] == Elements(ValueIds(rows)) && |candidates[v]| >= 2)
  {
    hide CleanCategory, CleanClue, VariablesOf, RowVariables;
    VariableAt(draft, encode, i, j);
    ItemCount(draft, i);
    assert OpensAt(draft, encode, rows, candidates, i, j);
    DistinctSize(ValueIds(rows));
    assert i == AnchorIndex(draft) <==> draft.categories[i].key == draft.anchorKey;
  }

  /** Something was attempted, everything attempted was rejected, and the assessment is a stalled run. */
  ghost predicate Stuck(solver: Engine.Solver, spec: GridSpec, genesis: PuzzleState, maxSteps: int)
    requires Shaped(spec) && spec.puzzle.WellFormed() && solver.puzzle == spec.puzzle
  {
    var run := Engine.Outcome(solver, genesis, maxSteps);
    && run.Ok? && run.value.attempts != []
    && (forall i :: 0 <= i < |run.value.attempts| ==> run.value.attempts[i].status == Coordinator.Rejected)
    && Builder.Proof(solver, spec, genesis, maxSteps) == Ok(Builder.Unproven(Engine.Stalled))
  }

  /** Above the limit, even a clue that puts a free item on a given row is rejected. */
  lemma {:induction false} AnchoredLinkIsRejected(solver: Engine.Solver, draft: Draft, encode: Encoding, spec: GridSpec,
      naming: LogicGridRules.Naming, symbolic: B.Solver, tables: T.CpSolver, genesis: PuzzleState, stateId: Identifier,
      branch: Identifier, n: nat, maxSteps: int, k: nat)
    requires spec.puzzle.WellFormed() && InitialState(spec.puzzle, stateId, branch, n) == Ok(genesis)
    requires HasSolution(spec.puzzle, genesis)
    requires Clean(draft) && Injective(encode) && spec == CompileDraft(draft, encode)
    requires Shaped(spec) && solver.puzzle == spec.puzzle && maxSteps > 0
    requires R.SetUp(solver, spec, naming, symbolic, tables)
    requires !Tabulated(draft) && k < |draft.clues| && LinksAnchor(draft, draft.clues[k].template)
    ensures Stuck(solver, spec, genesis, maxSteps)
  {
    hide Clean, CompileDraft, InitialState, HasSolution, Tabulated, Engine.Outcome, L.WithinLimits, Rules.Discover, Opens,
      Valid, LogicGridRules.GridRules, LogicGridDiscovery.Distinguishes, Anchor, Shaped, Puzzle.WellFormed, Builder.Proof,
      LogicGridRules.Findings, ValuesOf;
    var t := draft.clues[k].template;
    DraftProofFollowsLimits(solver, draft, encode, spec, naming, symbolic, tables, genesis, stateId, branch, n, maxSteps);
    DraftGenesisExists(draft, encode, stateId, branch, n);
    CompiledShape(draft, encode);
    var f := AnchoredLinkIsFound(draft, encode, genesis, k, t.left, t.right);
    R.GenesisIsGrounded(spec, stateId, branch, n);
    LogicGridDiscovery.FindingsAreDiscovered(spec, genesis, naming, LogicGridRules.Association, f);
    var found := Rules.Discover(spec.puzzle, genesis, solver.rules).value;
    var c := LogicGridRules.CandidateFor(LogicGridRules.Association, genesis, naming, f);
    assert c in found;
    assert EngineTheorems.Recorded(Engine.Outcome(solver, genesis, maxSteps).value.attempts, Events.OfState(genesis), c.id);
  }

  /** The clue says where a free item is by naming an anchor item. */
  predicate LinksAnchor(draft: Draft, t: Template) {
    t.Association? && t.same && t.left.category == draft.anchorKey && t.right.category != draft.anchorKey
  }

  lemma {:induction false} WideClueLinks()
    ensures |WideDraft().clues| == 2 && LinksAnchor(WideDraft(), WideDraft().clues[0].template)
  {
    assert "a"[0] != "b"[0];
  }

  function WideSpec(encode: Encoding): GridSpec {
    WideDraftIsClean();
    CompileDraft(WideDraft(), encode)
  }

  /** The draft is clean and its puzzle has a solution, and yet, however many steps are allowed, each of its
      deductions is rejected, the first clue's among them, and nothing is proved. */
  lemma {:induction false} WideDraftIsStuck(solver: Engine.Solver, encode: Encoding, naming: LogicGridRules.Naming,
      symbolic: B.Solver, tables: T.CpSolver, stateId: Identifier, branch: Identifier, n: nat, maxSteps: int)
    returns (genesis: PuzzleState)
    requires Injective(encode) && R.SetUp(solver, WideSpec(encode), naming, symbolic, tables) && maxSteps > 0
    requires
      && Shaped(WideSpec(encode))
      && WideSpec(encode).puzzle.WellFormed()
      && solver.puzzle == WideSpec(encode).puzzle
    ensures Clean(WideDraft()) && InitialState(WideSpec(encode).puzzle, stateId, branch, n) == Ok(genesis)
    ensures HasSolution(WideSpec(encode).puzzle, genesis)
    ensures Stuck(solver, WideSpec(encode), genesis, maxSteps)
  {
    hide Clean, CompileDraft, WideDraft, InitialState, HasSolution, Tabulated, R.SetUp, Opens, Anchor, ValuesOf, Shaped,
      Puzzle.WellFormed, FollowsLimits, StraightIsMeant, Stuck, FreeItems;
    var draft, spec := WideDraft(), WideSpec(encode);
    WideIsOverLimit();
    DraftGenesisExists(draft, encode, stateId, branch, n);
    genesis := InitialState(spec.puzzle, stateId, branch, n).value;
    WideIsMeant(NumericOf(Anchor(spec)));
    StraightSolves(draft, encode, stateId, branch, n);
    WideClueLinks();
    AnchoredLinkIsRejected(solver, draft, encode, spec, naming, symbolic, tables, genesis, stateId, branch, n, maxSteps, 0);
  }
}

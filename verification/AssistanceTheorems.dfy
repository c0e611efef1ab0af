/** Hints are sound: the marks' state means what the puzzle means, and an available step is a truth. */
module AssistanceTheorems {
  import opened Prelude
  import opened Domain
  import opened State
  import opened Events
  import opened Solutions
  import opened Encoding
  import opened Coordinator
  import opened Rules
  import opened Grid
  import opened LogicGrid
  import opened LogicGridRules
  import opened LogicGridSoundness
  import opened LogicGridDiscovery
  import opened LogicGridRuns
  import opened Assistance
  import Engine
  import P = Play
  import PT = PlayTheorems

  ghost predicate TrustedService(service: Service) {
    && (forall b :: b in service.backends ==> Trusted(b))
    && forall source :: Distinguishes(service.naming, source)
  }

  // ----- genesis states differ in name only -----

  lemma {:induction false} GenesisAlike(spec: GridSpec, p: Identifier, q: Identifier)
    requires Shaped(spec) && FreshState(spec, p).Ok?
    ensures FreshState(spec, q) == Ok(FreshState(spec, p).value.(stateId := q, branch := q))
  {
    hide NarrowAll, ApplyGivens, DeclaredDomains, SingletonAtoms, ListsDiffer, FullDomain;
    var s, t := FreshState(spec, p).value, FreshState(spec, p).value.(stateId := q, branch := q);
    assert forall atom :: AtomAgrees(atom, t, spec.puzzle) <==> AtomAgrees(atom, s, spec.puzzle);
    assert AllAgree(t.asserted, t, spec.puzzle);
    assert ValidState(t, spec.puzzle);
    assert t.Structural();
  }

  lemma {:induction false} NamesDoNotMatter(puzzle: Puzzle, s: PuzzleState, t: PuzzleState, a: Assignment)
    requires puzzle.WellFormed() && t.candidates == s.candidates && t.active == s.active
    ensures Solution(puzzle, s, a) <==> Solution(puzzle, t, a)
  {
  }

  // ----- classification -----

  /** What a trusted cross-verification says about the genesis. */
  lemma {:induction false} VerifiedIsEntailed(service: Service, spec: GridSpec, state: PuzzleState, atom: Atom)
    requires Shaped(spec) && TrustedService(service)
    requires ProofStatus(service, spec, state, atom, []).CrossVerified?
    ensures HasSolution(spec.puzzle, state) && Entails(spec.puzzle, state, atom)
  {
    hide Prepare, Solution, AtomHolds;
    var obligation := ClaimFor(service, spec, state, atom, []);
    DecisionIsSound(service.backends, spec.puzzle, state, obligation);
    AssertedAssumptionsAreFree(spec.puzzle, state, obligation);
    var a :| Base(spec.puzzle, state, obligation, a);
    assert Solution(spec.puzzle, state, a);
  }

  lemma {:induction false} NothingIsQuarantined(service: Service, spec: GridSpec, state: PuzzleState, atom: Atom,
      assumptions: seq<Atom>)
    requires Shaped(spec) && TrustedService(service)
    ensures !ProofStatus(service, spec, state, atom, assumptions).Quarantined?
  {
    DecisionIsSound(service.backends, spec.puzzle, state, ClaimFor(service, spec, state, atom, assumptions));
  }

  /** A supported mark is true in every solution, of which there is one; a contradicted mark is false in
      every solution; and no mark is ever disputed, because both sides cannot be verified. */
  lemma {:induction false} ClassificationIsSound(service: Service, spec: GridSpec, atom: Atom, purpose: Identifier,
      genesis: PuzzleState)
    requires Shaped(spec) && TrustedService(service) && !atom.OtherAtom?
    requires FreshState(spec, purpose) == Ok(genesis)
    ensures Evaluate(service, spec, atom).Ok? && !Evaluate(service, spec, atom).value.Disputed?
    ensures Evaluate(service, spec, atom).value.Supported? ==>
      HasSolution(spec.puzzle, genesis) && Entails(spec.puzzle, genesis, atom)
    ensures Evaluate(service, spec, atom).value.Contradicted? ==>
      HasSolution(spec.puzzle, genesis) && Entails(spec.puzzle, genesis, Opposite(atom))
  {
    hide Solution, ProofStatus, FreshState, TrustedService;
    var q := service.purposeName(atom);
    GenesisAlike(spec, purpose, q);
    var state := FreshState(spec, q).value;
    forall a ensures Solution(spec.puzzle, genesis, a) <==> Solution(spec.puzzle, state, a) {
      NamesDoNotMatter(spec.puzzle, genesis, state, a);
    }
    NothingIsQuarantined(service, spec, state, atom, []);
    NothingIsQuarantined(service, spec, state, Opposite(atom), []);
    if ProofStatus(service, spec, state, atom, []).CrossVerified? {
      VerifiedIsEntailed(service, spec, state, atom);
      NotBothEntailed(spec.puzzle, state, atom);
    }
    if ProofStatus(service, spec, state, Opposite(atom), []).CrossVerified? {
      VerifiedIsEntailed(service, spec, state, Opposite(atom));
    }
  }

  lemma {:induction false} NotBothEntailed(puzzle: Puzzle, state: PuzzleState, atom: Atom)
    requires puzzle.WellFormed() && HasSolution(puzzle, state) && !atom.OtherAtom? && Entails(puzzle, state, atom)
    ensures !Entails(puzzle, state, Opposite(atom))
  {
    hide Solution;
    var a :| Solution(puzzle, state, a);
    assert AtomHolds(atom, a);
  }

  /** Every supported mark is entailed, and any supported mark shows that a solution exists. */
  ghost predicate Confirmed(spec: GridSpec, genesis: PuzzleState, supported: seq<Atom>)
    requires Shaped(spec)
  {
    && (forall atom :: atom in supported ==> !atom.OtherAtom? && Entails(spec.puzzle, genesis, atom))
    && (supported != [] ==> HasSolution(spec.puzzle, genesis))
  }

  /** Outcomes that come from the listed marks, with every supported one confirmed and none disputed. */
  ghost predicate Accounted(spec: GridSpec, genesis: PuzzleState, atoms: seq<Atom>, outcomes: Outcomes)
    requires Shaped(spec)
  {
    && Confirmed(spec, genesis, SupportedBy(outcomes))
    && forall o :: o in outcomes ==> o.0 in atoms && o.0 !in spec.puzzle.givens && !o.1.Disputed?
  }

  lemma {:induction false} AccountedExtends(spec: GridSpec, genesis: PuzzleState, atoms: seq<Atom>, atom: Atom,
      outcomes: Outcomes, evaluation: Evaluation)
    requires Shaped(spec) && Accounted(spec, genesis, atoms, outcomes)
    requires atom !in spec.puzzle.givens && !evaluation.Disputed? && !atom.OtherAtom?
    requires evaluation.Supported? ==> HasSolution(spec.puzzle, genesis) && Entails(spec.puzzle, genesis, atom)
    ensures Accounted(spec, genesis, atoms + [atom], outcomes + [(atom, evaluation)])
  {
    hide Entails, HasSolution;
    assert (outcomes + [(atom, evaluation)])[..|outcomes|] == outcomes;
  }

  lemma {:induction false} MarksAreClassified(service: Service, spec: GridSpec, atoms: seq<Atom>, omit: Option<Atom>,
                                              purpose: Identifier, genesis: PuzzleState)
    requires Shaped(spec) && TrustedService(service) && FreshState(spec, purpose) == Ok(genesis)
    requires forall atom :: atom in atoms ==> !atom.OtherAtom?
    ensures ClassifyAll(service, spec, atoms, omit).Ok?
    ensures Accounted(spec, genesis, atoms, ClassifyAll(service, spec, atoms, omit).value)
  {
    hide Evaluate, FreshState, TrustedService, Accounted;
    if atoms == [] {
      NothingAccounted(spec, genesis);
    } else {
      var n := |atoms| - 1;
      assert atoms == atoms[..n] + [atoms[n]];
      MarksAreClassified(service, spec, atoms[..n], omit, purpose, genesis);
      var earlier := ClassifyAll(service, spec, atoms[..n], omit).value;
      if atoms[n] in spec.puzzle.givens || omit == Some(atoms[n]) {
        AccountedWidens(spec, genesis, atoms[..n], atoms[n], earlier);
      } else {
        ClassificationIsSound(service, spec, atoms[n], purpose, genesis);
        AccountedExtends(spec, genesis, atoms[..n], atoms[n], earlier, Evaluate(service, spec, atoms[n]).value);
      }
    }
  }

  lemma {:induction false} NothingAccounted(spec: GridSpec, genesis: PuzzleState)
    requires Shaped(spec)
    ensures Accounted(spec, genesis, [], [])
  {
  }

  lemma {:induction false} AccountedWidens(spec: GridSpec, genesis: PuzzleState, atoms: seq<Atom>, atom: Atom,
      outcomes: Outcomes)
    requires Shaped(spec) && Accounted(spec, genesis, atoms, outcomes)
    ensures Accounted(spec, genesis, atoms + [atom], outcomes)
  {
    hide Confirmed;
  }

  // ----- the marks' state -----

  /** Narrowing by atoms that hold at `b` keeps `b`, loses only what the atoms exclude, and leaves each
      atom settled. */
  lemma {:induction false} NarrowingKeeps(candidates: CandidateDomains, atoms: seq<Atom>, b: Assignment)
    requires b.Keys == candidates.Keys && Drawn(candidates, b)
    requires forall atom :: atom in atoms ==> !atom.OtherAtom? && AtomHolds(atom, b)
    ensures NarrowByAll(candidates, atoms).Ok?
    ensures var next := NarrowByAll(candidates, atoms).value;
      && next.Keys == candidates.Keys && Drawn(next, b)
      && (forall v :: v in next ==> next[v] <= candidates[v])
      && (forall atom :: atom in atoms ==> atom.variable in next && Settled(atom, next[atom.variable]))
  {
    if atoms != [] {
      var n := |atoms| - 1;
      NarrowingKeeps(candidates, atoms[..n], b);
      assert atoms == atoms[..n] + [atoms[n]];
      var earlier := NarrowByAll(candidates, atoms[..n]).value;
      var atom := atoms[n];
      assert atom in atoms && atom.variable in b;
      var next := NarrowBy(earlier, atom).value;
      forall v | v in next ensures next[v] <= earlier[v] && b[v] in next[v] {
      }
      forall other | other in atoms ensures other.variable in next && Settled(other, next[other.variable]) {
        if other in atoms[..n] {
          assert Settled(other, earlier[other.variable]);
          assert AtomHolds(other, b) && b[other.variable] in next[other.variable];
        }
      }
    }
  }

  /** The candidates decide the atom in its favour. */
  predicate Settled(atom: Atom, candidates: set<ValueId>) {
    match atom
    case AssignmentAtom(_, x) => candidates == {x}
    case ExclusionAtom(_, x) => x !in candidates
    case OtherAtom(_) => true
  }

  lemma {:induction false} NarrowingOnlyExcludes(candidates: CandidateDomains, atoms: seq<Atom>, a: Assignment)
    requires NarrowByAll(candidates, atoms).Ok? && a.Keys == candidates.Keys && Drawn(candidates, a)
    requires forall atom :: atom in atoms ==> AtomHolds(atom, a)
    ensures Drawn(NarrowByAll(candidates, atoms).value, a)
  {
    if atoms != [] {
      var n := |atoms| - 1;
      assert atoms == atoms[..n] + [atoms[n]];
      NarrowingOnlyExcludes(candidates, atoms[..n], a);
      NarrowByOnlyExcludes(NarrowByAll(candidates, atoms[..n]).value, atoms[n], a);
    }
  }

  lemma {:induction false} NarrowByOnlyExcludes(candidates: CandidateDomains, atom: Atom, a: Assignment)
    requires NarrowBy(candidates, atom).Ok? && Drawn(candidates, a) && AtomHolds(atom, a)
    ensures Drawn(NarrowBy(candidates, atom).value, a)
  {
    var next := NarrowBy(candidates, atom).value;
    forall v | v in a ensures v in next && a[v] in next[v] {
      assert v in candidates && a[v] in candidates[v];
    }
  }

  /** What the state read off confirmed marks is: built without fail, with exactly the genesis solutions,
      and live whenever the genesis has a solution. */
  ghost predicate Faithful(spec: GridSpec, genesis: PuzzleState, state: PuzzleState)
    requires Shaped(spec)
  {
    && SameSolutions(spec.puzzle, genesis, state)
    && (HasSolution(spec.puzzle, genesis) ==> Live(spec, state))
  }

  lemma {:induction false} MarkedStateIsFaithful(service: Service, spec: GridSpec, purpose: Identifier,
      genesis: PuzzleState, supported: seq<Atom>)
    requires
      && Shaped(spec)
      && Valid(spec)
      && FreshState(spec, purpose) == Ok(genesis)
      && Confirmed(spec, genesis, supported)
    ensures MarkedState(service, spec, genesis, supported).Ok?
    ensures Faithful(spec, genesis, MarkedState(service, spec, genesis, supported).value)
  {
    hide Solution, Valid, NarrowByAll, AtomAgrees, ListsDiffer, SingletonAtoms, FullDomain, NarrowAll, ApplyGivens;
    if b :| Solution(spec.puzzle, genesis, b) {
      SolvableMarksAreFaithful(service, spec, purpose, genesis, supported, b);
    } else {
      assert supported == [];
      UnmarkedStateIsFaithful(service, spec, purpose, genesis);
    }
  }

  lemma {:induction false} UnmarkedStateIsFaithful(service: Service, spec: GridSpec, purpose: Identifier,
      genesis: PuzzleState)
    requires Shaped(spec) && FreshState(spec, purpose) == Ok(genesis) && !HasSolution(spec.puzzle, genesis)
    ensures MarkedState(service, spec, genesis, []).Ok?
    ensures Faithful(spec, genesis, MarkedState(service, spec, genesis, []).value)
  {
    hide Solution, AtomAgrees, ListsDiffer, FullDomain, NarrowAll, ApplyGivens, DeclaredDomains;
    assert NarrowByAll(genesis.candidates, []) == Ok(genesis.candidates);
    var state := MarkedState(service, spec, genesis, []).value;
    forall a ensures Solution(spec.puzzle, genesis, a) <==> Solution(spec.puzzle, state, a) {
      NamesDoNotMatter(spec.puzzle, genesis, state, a);
    }
  }

  /** The parts of a genesis the marks' state builds on. */
  lemma {:induction false} GenesisParts(spec: GridSpec, purpose: Identifier, genesis: PuzzleState)
    requires Shaped(spec) && FreshState(spec, purpose) == Ok(genesis)
    ensures ValidState(genesis, spec.puzzle) && genesis.Structural()
    ensures genesis.candidates != map[] && genesis.rejected == {}
    ensures genesis.active == (set c | c in spec.puzzle.constraints :: c.id)
    ensures genesis.candidates.Keys == spec.puzzle.variables.Keys && genesis.revision == spec.puzzle.revision
  {
    hide NarrowAll, ApplyGivens, DeclaredDomains, ListsDiffer, AllAgree, FullDomain;
  }

  lemma {:induction false} SolvableMarksAreFaithful(service: Service, spec: GridSpec, purpose: Identifier,
      genesis: PuzzleState,
                                 supported: seq<Atom>, b: Assignment)
    requires
      && Shaped(spec)
      && Valid(spec)
      && FreshState(spec, purpose) == Ok(genesis)
      && Confirmed(spec, genesis, supported)
    requires Solution(spec.puzzle, genesis, b)
    ensures MarkedState(service, spec, genesis, supported).Ok?
    ensures Faithful(spec, genesis, MarkedState(service, spec, genesis, supported).value)
  {
    hide Valid, FreshState, NarrowByAll, AtomAgrees, ListsDiffer, ConstraintHolds, AtomHolds, ValidState,
      PuzzleState.Structural;
    GenesisParts(spec, purpose, genesis);
    assert Drawn(genesis.candidates, b) && b.Keys == genesis.candidates.Keys by { SolutionParts(spec.puzzle, genesis, b); }
    NarrowingKeeps(genesis.candidates, supported, b);
    var candidates := NarrowByAll(genesis.candidates, supported).value;
    forall v | v in candidates ensures candidates[v] != {} {
      assert v in b && b[v] in candidates[v];
    }
    MarkedStateIsBuilt(service, spec, genesis, supported);
    var state := MarkedState(service, spec, genesis, supported).value;
    forall a ensures Solution(spec.puzzle, genesis, a) <==> Solution(spec.puzzle, state, a) {
      MarkedSolutions(spec, genesis, supported, state, a);
    }
    MarkedStateIsLive(spec, genesis, supported, state, b);
  }

  lemma {:induction false} EmptyKeys(candidates: CandidateDomains)
    ensures candidates == map[] <==> candidates.Keys == {}
  {
  }

  lemma {:induction false} SolutionParts(puzzle: Puzzle, state: PuzzleState, b: Assignment)
    requires puzzle.WellFormed() && Solution(puzzle, state, b)
    ensures Drawn(state.candidates, b) && b.Keys == puzzle.variables.Keys
  {
  }

  lemma {:induction false} MarkedStateIsBuilt(service: Service, spec: GridSpec, genesis: PuzzleState,
      supported: seq<Atom>)
    requires NarrowByAll(genesis.candidates, supported).Ok? && genesis.candidates != map[]
    requires NarrowByAll(genesis.candidates, supported).value.Keys == genesis.candidates.Keys
    requires forall v :: v in NarrowByAll(genesis.candidates, supported).value ==> NarrowByAll(genesis.candidates, supported).value[v] != {}
    ensures MarkedState(service, spec, genesis, supported).Ok?
    ensures var state := MarkedState(service, spec, genesis, supported).value;
      && state.Structural() && state.candidates == NarrowByAll(genesis.candidates, supported).value
      && state.active == genesis.active && state.rejected == {} && state.contradictions == []
      && state.revision == spec.puzzle.revision
      && state.asserted == genesis.asserted + Elements(supported) + SingletonAtoms(state.candidates)
  {
    hide NarrowByAll;
    EmptyKeys(genesis.candidates);
    EmptyKeys(NarrowByAll(genesis.candidates, supported).value);
  }

  lemma {:induction false} MarkedSolutions(spec: GridSpec, genesis: PuzzleState, supported: seq<Atom>,
      state: PuzzleState, a: Assignment)
    requires
      && Shaped(spec)
      && Confirmed(spec, genesis, supported)
      && genesis.candidates.Keys == spec.puzzle.variables.Keys
    requires NarrowByAll(genesis.candidates, supported) == Ok(state.candidates) && state.active == genesis.active
    requires state.candidates.Keys == genesis.candidates.Keys
    requires forall v :: v in state.candidates ==> state.candidates[v] <= genesis.candidates[v]
    ensures Solution(spec.puzzle, genesis, a) <==> Solution(spec.puzzle, state, a)
  {
    hide ConstraintHolds, NarrowByAll, AtomHolds;
    if Solution(spec.puzzle, genesis, a) {
      NarrowingOnlyExcludes(genesis.candidates, supported, a);
      assert Drawn(state.candidates, a);
    }
    if Solution(spec.puzzle, state, a) {
      forall v | v in a ensures v in genesis.candidates && a[v] in genesis.candidates[v] {
        assert a[v] in state.candidates[v];
      }
    }
  }

  lemma {:induction false} MarkedStateIsLive(spec: GridSpec, genesis: PuzzleState, supported: seq<Atom>,
      state: PuzzleState, b: Assignment)
    requires Shaped(spec) && Valid(spec) && ValidState(genesis, spec.puzzle) && Solution(spec.puzzle, state, b)
    requires state.Structural() && state.revision == spec.puzzle.revision
    requires state.active == (set c | c in spec.puzzle.constraints :: c.id)
    requires state.candidates.Keys == genesis.candidates.Keys
    requires forall v :: v in state.candidates ==> state.candidates[v] <= genesis.candidates[v]
    requires forall atom :: atom in supported ==> !atom.OtherAtom? && atom.variable in state.candidates && Settled(atom, state.candidates[atom.variable])
    requires state.asserted == genesis.asserted + Elements(supported) + SingletonAtoms(state.candidates)
    ensures Live(spec, state)
  {
    hide Valid, ListsDiffer, ConstraintHolds, PuzzleState.Structural, FullDomain, AtomAgrees, SingletonAtoms;
    forall v | v in state.candidates ensures state.candidates[v] <= FullDomain(spec.puzzle, v) {
      assert genesis.candidates[v] <= FullDomain(spec.puzzle, v);
    }
    forall atom | atom in state.asserted ensures AtomAgrees(atom, state, spec.puzzle) {
      MarkedAtomAgrees(spec, genesis, supported, state, b, atom);
    }
    SolvableListsDiffer(spec, state);
  }

  lemma {:induction false} MarkedAtomAgrees(spec: GridSpec, genesis: PuzzleState, supported: seq<Atom>,
      state: PuzzleState, b: Assignment, atom: Atom)
    requires Shaped(spec) && ValidState(genesis, spec.puzzle) && Solution(spec.puzzle, state, b)
    requires state.candidates.Keys == genesis.candidates.Keys
    requires forall v :: v in state.candidates ==> state.candidates[v] <= genesis.candidates[v]
    requires forall atom :: atom in supported ==> !atom.OtherAtom? && atom.variable in state.candidates && Settled(atom, state.candidates[atom.variable])
    requires atom in genesis.asserted || atom in supported || atom in SingletonAtoms(state.candidates)
    ensures AtomAgrees(atom, state, spec.puzzle)
  {
    hide ConstraintHolds, ListsDiffer, Anchor;
    if atom in genesis.asserted {
      assert AtomAgrees(atom, genesis, spec.puzzle);
      if atom.AssignmentAtom? {
        assert b[atom.variable] in state.candidates[atom.variable];
      }
    } else if atom.AssignmentAtom? {
      var v := atom.variable;
      assert state.candidates[v] == {atom.value};
      assert atom.value in genesis.candidates[v];
      assert genesis.candidates[v] <= FullDomain(spec.puzzle, v);
    }
  }

  /** Reading the marks never fails and never finds an impossible state: the result has exactly the genesis
      solutions. */
  lemma {:induction false} MarksKeepSolutions(service: Service, spec: GridSpec, atoms: seq<Atom>, omit: Option<Atom>,
      purpose: Identifier, genesis: PuzzleState)
    requires Shaped(spec) && Valid(spec) && TrustedService(service) && FreshState(spec, purpose) == Ok(genesis)
    requires forall atom :: atom in atoms ==> !atom.OtherAtom?
    ensures StateFromMarks(service, spec, atoms, omit, purpose).Ok?
    ensures var (state, outcomes) := StateFromMarks(service, spec, atoms, omit, purpose).value;
      && Faithful(spec, genesis, state)
      && (forall o :: o in outcomes ==> o.0 in atoms && o.0 !in spec.puzzle.givens && !o.1.Disputed?)
  {
    hide Valid, FreshState, TrustedService, MarkedState, ClassifyAll, Faithful, Confirmed;
    MarksAreClassified(service, spec, atoms, omit, purpose, genesis);
    MarkedStateIsFaithful(service, spec, purpose, genesis, SupportedBy(ClassifyAll(service, spec, atoms, omit).value));
  }

  // ----- corrections -----

  /** A mark after a path was either there before or made by an event of the path. */
  lemma {:induction false} MarksHaveMakers(marks: P.Marks, path: seq<P.PlayEvent>, atom: Atom)
    requires IsMark(atom, P.Follow(marks, path)) && P.OnlyCells(path) && forall e :: e in path ==> e.body.accepted
    ensures IsMark(atom, marks) || exists e :: e in path && MadeBy(e, atom)
  {
    if path != [] {
      var n := |path| - 1;
      assert path == path[..n] + [path[n]];
      if IsMark(atom, P.Follow(marks, path[..n])) {
        MarksHaveMakers(marks, path[..n], atom);
      } else {
        assert path[n] in path && MadeBy(path[n], atom);
      }
    }
  }

  /** Every mark of a sane session that is not a given has a retained accepted event that made it. */
  lemma {:induction false} MarksAreRetained(s: P.Session, spec: GridSpec, atom: Atom)
    requires Shaped(spec) && PT.Sane(spec, s) && IsMark(atom, s.view.marks) && atom !in spec.puzzle.givens
    ensures exists e :: e in s.events && MadeBy(e, atom)
  {
    hide PT.Permitted, P.Conflicts, Accepts, P.WellShaped, PT.UniqueIds, PT.Dated, P.MoveEvents, PT.StrictlyPeaceful;
    var moves, puzzle := P.MoveEvents(s.events), spec.puzzle;
    assert PT.CellMoves(moves);
    PT.NodeProjects(puzzle, moves, s.view.head);
    var path := P.Path(moves, s.view.head, {}).value;
    PT.PathMembers(moves, s.view.head, {});
    PT.MovesAreKnown(s.events);
    GivenMarksAreGivens(puzzle, atom);
    MarksHaveMakers(P.GivenMarks(puzzle), path, atom);
    var e :| e in path && MadeBy(e, atom);
    var n :| n in moves && moves[n] == e;
  }

  lemma {:induction false} GivenMarksAreGivens(puzzle: Puzzle, atom: Atom)
    requires atom !in puzzle.givens
    ensures !IsMark(atom, P.GivenMarks(puzzle))
  {
    PT.GivenLookup(puzzle.givens);
  }

  // ----- hints -----

  /** What a hint asserts about the puzzle. */
  ghost predicate HintIsTrue(spec: GridSpec, s: P.Session, genesis: PuzzleState, hint: Hint)
    requires Shaped(spec)
  {
    match hint
    case Available(conclusion) => Entails(spec.puzzle, genesis, conclusion)
    case CorrectionRequired(atom, id) =>
      IsMark(atom, s.view.marks) && exists e :: e in s.events && e.body.id == id && MadeBy(e, atom)
    case VerificationDisputed => false
    case _ => true
  }

  lemma {:induction false} StepIsTrue(service: Service, spec: GridSpec, state: PuzzleState, policy: Policy)
    requires Shaped(spec) && Valid(spec) && TrustedService(service)
    requires HasSolution(spec.puzzle, state) ==> Live(spec, state)
    requires NextStep(service, spec, state, policy).Ok?
    ensures var hint := NextStep(service, spec, state, policy).value;
      && !hint.VerificationDisputed? && !hint.CorrectionRequired?
      && (hint.Available? ==> Entails(spec.puzzle, state, hint.conclusion))
  {
    hide Valid, Solution, Discover, GridRules, Decide, ClaimFor, Engine.FindRule;
    var hint := NextStep(service, spec, state, policy).value;
    var found := Discover(spec.puzzle, state, GridRules(spec, service.naming)).value;
    var selected := Select(found, policy);
    if selected.Some? {
      var rule := Engine.FindRule(GridRules(spec, service.naming), selected.value.rule).value;
      var proposal := rule.apply(selected.value, state).value;
      NothingIsQuarantined(service, spec, state, proposal.conclusions[0], proposal.premises);
      if HasSolution(spec.puzzle, state) && hint.Available? {
        SelectedConclusionIsTrue(service, spec, state, selected.value, rule, proposal);
      }
    }
  }

  lemma {:induction false} SelectedConclusionIsTrue(service: Service, spec: GridSpec, state: PuzzleState,
      c: Candidate, rule: Rule, proposal: Proposal)
    requires Shaped(spec) && TrustedService(service) && Live(spec, state)
    requires Discover(spec.puzzle, state, GridRules(spec, service.naming)).Ok?
    requires c in Discover(spec.puzzle, state, GridRules(spec, service.naming)).value
    requires
      && Engine.FindRule(GridRules(spec, service.naming), c.rule) == Some(rule)
      && rule.apply(c, state) == Ok(proposal)
    ensures proposal.conclusions != [] && Entails(spec.puzzle, state, proposal.conclusions[0])
  {
    hide Valid, Solution, ValidState, PuzzleState.Structural, HasSolution, Discover, GridRules, Engine.FindRule,
      Distinguishes, Entails, FromTechnique;
    DiscoverySucceeds(spec, state, service.naming);
    var t :| FromTechnique(c, t, spec, state, service.naming);
    var solver := Engine.Solver(spec.puzzle, GridRules(spec, service.naming), service.backends, TeachingFirst,
      Engine.Context(0, 0, Genesis, (a, b, d, e) => 0, (a, b, d, e) => 0, p => 0));
    CandidatesValidate(solver, spec, state, service.naming, c, t);
    assert Engine.Propose(solver, state, c).value == (proposal, proposal.conclusions[0]);
  }

  /** Hints tell the truth: an available step holds in every solution of the puzzle, a required correction
      names a current mark and the retained event that made it, and verification is never disputed. */
  lemma {:induction false} HintsAreTrue(service: Service, spec: GridSpec, s: P.Session, atoms: seq<Atom>,
      policy: Policy,
                     purpose: Identifier, genesis: PuzzleState)
    requires Shaped(spec) && Valid(spec) && TrustedService(service) && PT.Sane(spec, s)
    requires FreshState(spec, purpose) == Ok(genesis) && ListsMarks(atoms, s.view.marks)
    requires RequestHint(service, spec, s, atoms, policy, purpose).Ok?
    ensures HintIsTrue(spec, s, genesis, RequestHint(service, spec, s, atoms, policy, purpose).value)
  {
    hide Valid, FreshState, TrustedService, StateFromMarks, NextStep, PT.Sane, Solution, Live;
    MarksKeepSolutions(service, spec, atoms, None, purpose, genesis);
    var (state, outcomes) := StateFromMarks(service, spec, atoms, None, purpose).value;
    SameHasSolution(spec, genesis, state);
    if NextStep(service, spec, state, policy).Ok? {
      StepIsTrue(service, spec, state, policy);
    }
  }

  lemma {:induction false} StepIsFound(service: Service, spec: GridSpec, state: PuzzleState, policy: Policy)
    requires Shaped(spec) && TrustedService(service) && Live(spec, state)
    ensures NextStep(service, spec, state, policy).Ok?
  {
    hide Valid, Solution, ValidState, PuzzleState.Structural, HasSolution, Discover, GridRules, Engine.FindRule,
      Distinguishes, FromTechnique, Decide, Engine.ValidateProposal;
    DiscoverySucceeds(spec, state, service.naming);
    var found := Discover(spec.puzzle, state, GridRules(spec, service.naming)).value;
    var selected := Select(found, policy);
    if selected.Some? {
      var c := selected.value;
      var t :| FromTechnique(c, t, spec, state, service.naming);
      var solver := Engine.Solver(spec.puzzle, GridRules(spec, service.naming), service.backends, policy,
        Engine.Context(0, 0, Genesis, (a, b, d, e) => 0, (a, b, d, e) => 0, p => 0));
      CandidatesValidate(solver, spec, state, service.naming, c, t);
      var (proposal, conclusion) := Engine.Propose(solver, state, c).value;
      ProposalConcludes(spec.puzzle, state, c, proposal, conclusion);
    }
  }

  lemma {:induction false} ProposalConcludes(puzzle: Puzzle, state: PuzzleState, c: Candidate, proposal: Proposal,
      conclusion: Atom)
    requires Engine.ValidateProposal(puzzle, state, c, proposal) == Ok(conclusion)
    ensures proposal.conclusions == [conclusion] && !conclusion.OtherAtom?
  {
  }

  /** On a sane session of a valid puzzle that has a solution every request is answered, and truthfully. */
  lemma {:induction false} HintsAreAnswered(service: Service, spec: GridSpec, s: P.Session, atoms: seq<Atom>,
      policy: Policy, purpose: Identifier, genesis: PuzzleState)
    requires Shaped(spec) && Valid(spec) && TrustedService(service) && PT.Sane(spec, s)
    requires FreshState(spec, purpose) == Ok(genesis) && ListsMarks(atoms, s.view.marks)
    requires HasSolution(spec.puzzle, genesis)
    ensures RequestHint(service, spec, s, atoms, policy, purpose).Ok?
    ensures HintIsTrue(spec, s, genesis, RequestHint(service, spec, s, atoms, policy, purpose).value)
  {
    hide Valid, FreshState, TrustedService, StateFromMarks, NextStep, PT.Sane, Solution, Live, HintIsTrue;
    MarksKeepSolutions(service, spec, atoms, None, purpose, genesis);
    var (state, outcomes) := StateFromMarks(service, spec, atoms, None, purpose).value;
    SaneRevision(spec, s);
    StepIsFound(service, spec, state, policy);
    var contradicted := FirstContradicted(outcomes);
    if contradicted.Some? {
      CorrectionsAreFound(service, spec, s, atoms, purpose, genesis, contradicted.value);
    }
    HintsAreTrue(service, spec, s, atoms, policy, purpose, genesis);
  }

  lemma {:induction false} SaneRevision(spec: GridSpec, s: P.Session)
    requires Shaped(spec) && PT.Sane(spec, s)
    ensures s.view.revision == spec.puzzle.revision
  {
  }

  lemma {:induction false} SameHasSolution(spec: GridSpec, genesis: PuzzleState, state: PuzzleState)
    requires Shaped(spec) && SameSolutions(spec.puzzle, genesis, state)
    ensures HasSolution(spec.puzzle, genesis) <==> HasSolution(spec.puzzle, state)
    ensures forall atom :: Entails(spec.puzzle, genesis, atom) <==> Entails(spec.puzzle, state, atom)
  {
    hide Solution, AtomHolds;
  }

  /** The lookup of the event behind a contradicted mark always succeeds. */
  lemma {:induction false} CorrectionsAreFound(service: Service, spec: GridSpec, s: P.Session, atoms: seq<Atom>,
      purpose: Identifier, genesis: PuzzleState, atom: Atom)
    requires Shaped(spec) && Valid(spec) && TrustedService(service) && PT.Sane(spec, s)
    requires FreshState(spec, purpose) == Ok(genesis) && ListsMarks(atoms, s.view.marks)
    requires StateFromMarks(service, spec, atoms, None, purpose).Ok?
    requires FirstContradicted(StateFromMarks(service, spec, atoms, None, purpose).value.1) == Some(atom)
    ensures LastMaking(s.events, atom).Some?
  {
    hide Valid, FreshState, TrustedService, StateFromMarks, PT.Sane, Faithful;
    MarksKeepSolutions(service, spec, atoms, None, purpose, genesis);
    assert (atom, Contradicted) in StateFromMarks(service, spec, atoms, None, purpose).value.1;
    MarksAreRetained(s, spec, atom);
  }
}

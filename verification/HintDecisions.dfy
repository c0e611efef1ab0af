/** Which answer a hint request gets, and what decides it. */
module HintDecisions {
  import opened Prelude
  import opened Domain
  import opened State
  import opened Events
  import opened Sorting
  import opened Solutions
  import opened Encoding
  import opened Coordinator
  import opened Rules
  import opened LogicGrid
  import opened LogicGridRules
  import opened LogicGridSoundness
  import opened LogicGridDiscovery
  import opened LogicGridTables
  import opened LogicGridRuns
  import opened Assistance
  import opened AssistanceTheorems
  import B = SymbolicBackend
  import T = CpSat
  import Grid
  import Engine
  import EngineTheorems
  import P = Play
  import PT = PlayTheorems
  import PS = PlaySteps

  // ----- classification -----

  /** What the backends decide about a claim, posed in `state` under the listed assumptions. */
  function Status(service: Service, spec: GridSpec, state: PuzzleState, atom: Atom,
      premises: seq<Atom>): DecisionStatus {
    Decide(service.backends, spec.puzzle, state,
           Obligation(service.obligationName(state.stateId, atom, premises), spec.puzzle.revision, OfState(state), premises, atom)).status
  }

  /** The classification table: exactly one verified side decides; a quarantined or a twice verified mark is
      disputed; anything else is undecided. */
  lemma {:induction false} EvaluationTable(service: Service, spec: GridSpec, atom: Atom, state: PuzzleState)
    requires Shaped(spec) && FreshState(spec, service.purposeName(atom)) == Ok(state)
    ensures var yes := Status(service, spec, state, atom, []);
      var no := Status(service, spec, state, Opposite(atom), []);
      var r := Evaluate(service, spec, atom);
      && r.Ok?
      && (r.value.Supported? <==> yes.CrossVerified? && !no.CrossVerified?)
      && (r.value.Contradicted? <==> no.CrossVerified? && !yes.CrossVerified?)
      && (r.value.Disputed? <==> yes.CrossVerified? == no.CrossVerified? && (yes.CrossVerified? || yes.Quarantined? || no.Quarantined?))
  {
    hide Decide, FreshState;
  }

  // ----- which marks are looked at -----

  /** A listed mark that is not a given, with its classification. */
  ghost predicate JudgedAs(service: Service, spec: GridSpec, atoms: seq<Atom>, i: nat, e: Evaluation)
    requires Shaped(spec)
  {
    i < |atoms| && atoms[i] !in spec.puzzle.givens && Evaluate(service, spec, atoms[i]) == Ok(e)
  }

  ghost predicate SomeJudged(service: Service, spec: GridSpec, atoms: seq<Atom>, e: Evaluation)
    requires Shaped(spec)
  {
    exists i: nat :: JudgedAs(service, spec, atoms, i, e)
  }

  lemma {:induction false} OutcomesAre(service: Service, spec: GridSpec, atoms: seq<Atom>, atom: Atom, e: Evaluation)
    requires Shaped(spec) && ClassifyAll(service, spec, atoms, None).Ok?
    ensures (atom, e) in ClassifyAll(service, spec, atoms, None).value <==>
      atom in atoms && atom !in spec.puzzle.givens && Evaluate(service, spec, atom) == Ok(e)
  {
    hide Evaluate;
    if atoms != [] {
      var n := |atoms| - 1;
      assert atoms == atoms[..n] + [atoms[n]];
      OutcomesAre(service, spec, atoms[..n], atom, e);
    }
  }

  lemma {:induction false} SomeOutcome(service: Service, spec: GridSpec, atoms: seq<Atom>, e: Evaluation)
    requires Shaped(spec) && ClassifyAll(service, spec, atoms, None).Ok?
    ensures (exists o :: o in ClassifyAll(service, spec, atoms, None).value && o.1 == e) <==> SomeJudged(service, spec, atoms, e)
  {
    hide Evaluate, ClassifyAll;
    var outcomes := ClassifyAll(service, spec, atoms, None).value;
    if o :| o in outcomes && o.1 == e {
      OutcomesAre(service, spec, atoms, o.0, e);
      assert o == (o.0, e);
      var i :| 0 <= i < |atoms| && atoms[i] == o.0;
      assert JudgedAs(service, spec, atoms, i, e);
    }
    if i: nat :| JudgedAs(service, spec, atoms, i, e) {
      OutcomesAre(service, spec, atoms, atoms[i], e);
      var o := (atoms[i], e);
      assert o in outcomes && o.1 == e;
    }
  }

  lemma {:induction false} FirstAppends(outcomes: Outcomes, last: (Atom, Evaluation))
    ensures FirstContradicted(outcomes + [last]) ==
      if FirstContradicted(outcomes).Some? then FirstContradicted(outcomes)
      else if last.1.Contradicted? then Some(last.0) else None
  {
    if outcomes != [] {
      assert (outcomes + [last])[1..] == outcomes[1..] + [last];
      FirstAppends(outcomes[1..], last);
    } else {
      assert [last][1..] == [];
    }
  }

  /** The correction is about the first contradicted mark of the listing. */
  lemma {:induction false} FirstIsFirst(service: Service, spec: GridSpec, atoms: seq<Atom>) returns (i: nat)
    requires Shaped(spec) && ClassifyAll(service, spec, atoms, None).Ok?
    ensures var first := FirstContradicted(ClassifyAll(service, spec, atoms, None).value);
      && (first.Some? ==>
            && JudgedAs(service, spec, atoms, i, Contradicted) && first == Some(atoms[i])
            && forall j: nat :: j < i ==> !JudgedAs(service, spec, atoms, j, Contradicted))
      && (first.None? ==> !SomeJudged(service, spec, atoms, Contradicted))
  {
    hide Evaluate;
    i := 0;
    if atoms != [] {
      var n := |atoms| - 1;
      i := FirstIsFirst(service, spec, atoms[..n]);
      var earlier := ClassifyAll(service, spec, atoms[..n], None).value;
      forall j: nat, e | j < n ensures JudgedAs(service, spec, atoms[..n], j, e) <==> JudgedAs(service, spec, atoms, j, e) {
        assert atoms[..n][j] == atoms[j];
      }
      if atoms[n] !in spec.puzzle.givens {
        FirstAppends(earlier, (atoms[n], Evaluate(service, spec, atoms[n]).value));
      }
      if FirstContradicted(earlier).None? {
        forall j: nat | j < n ensures !JudgedAs(service, spec, atoms, j, Contradicted) {
          assert !JudgedAs(service, spec, atoms[..n], j, Contradicted);
        }
        i := n;
      }
    }
  }

  // ----- the event behind a mark -----

  /** An accepted assignment, or exclusion, of the very cell. */
  predicate Makes(e: P.PlayEvent, atom: Atom) {
    && e.body.accepted
    && match atom
       case AssignmentAtom(v, x) => e.body.action == P.AssignCell(v, x)
       case ExclusionAtom(v, x) => e.body.action == P.ExcludeCell(v, x)
       case OtherAtom(_) => false
  }

  /** The latest event that made the mark has this identifier. */
  ghost predicate LastMade(events: seq<P.PlayEvent>, atom: Atom, id: P.EventId) {
    exists k :: 0 <= k < |events| && Makes(events[k], atom) && events[k].body.id == id
      && forall l :: k < l < |events| ==> !Makes(events[l], atom)
  }

  lemma {:induction false} LastMakingIsLast(events: seq<P.PlayEvent>, atom: Atom)
    ensures LastMaking(events, atom).Some? ==> LastMade(events, atom, LastMaking(events, atom).value.body.id)
  {
    if events != [] && LastMaking(events, atom).Some? {
      var n := |events| - 1;
      if MadeBy(events[n], atom) {
        assert Makes(events[n], atom);
      } else {
        LastMakingIsLast(events[..n], atom);
        var id := LastMaking(events, atom).value.body.id;
        var k :| 0 <= k < n && Makes(events[..n][k], atom) && events[..n][k].body.id == id
          && forall l :: k < l < n ==> !Makes(events[..n][l], atom);
        forall l | k < l < |events| ensures !Makes(events[l], atom) {
          if l < n {
            assert events[..n][l] == events[l];
          }
        }
      }
    }
  }

  // ----- the next step -----

  lemma {:induction false} ShippedProposes(spec: GridSpec, naming: Naming, state: PuzzleState, c: Candidate)
    requires Shaped(spec)
    requires var rule := Engine.FindRule(GridRules(spec, naming), c.rule); rule.Some? && rule.value.apply(c, state).Ok?
    ensures c.tieBreak.AtomText? && !c.tieBreak.atom.OtherAtom?
    ensures var proposal := Engine.FindRule(GridRules(spec, naming), c.rule).value.apply(c, state).value;
      proposal.conclusions == [c.tieBreak.atom] && proposal.premises == c.premises
  {
    hide Shaped, Findings, Technique.Reference;
    var rules := GridRules(spec, naming);
    EngineTheorems.FoundRuleMatches(rules, c.rule);
    var rule := Engine.FindRule(rules, c.rule).value;
    var i :| 0 <= i < |rules| && rules[i] == rule;
    assert rule == GridRule(TECHNIQUES[i], spec, naming);
  }

  /** The step table, over what the rules discover and what the backends decide about the selected candidate:
      nothing discovered, a disputed claim, an undecided one, or a cross-verified one that is shown. */
  ghost predicate StepDecided(service: Service, spec: GridSpec, state: PuzzleState, policy: Policy, hint: Hint)
    requires Shaped(spec)
  {
    var found := Discover(spec.puzzle, state, GridRules(spec, service.naming));
    && found.Ok?
    && if found.value == [] then hint == RulesExhausted
       else
         var c := Select(found.value, policy).value;
         && c.tieBreak.AtomText?
         && var status := Status(service, spec, state, c.tieBreak.atom, c.premises);
            hint == if status.CrossVerified? then Available(c.tieBreak.atom)
                    else if status.Quarantined? then VerificationDisputed else StepUndecided
  }

  lemma {:induction false} StepTable(service: Service, spec: GridSpec, state: PuzzleState, policy: Policy)
    requires Shaped(spec) && NextStep(service, spec, state, policy).Ok?
    ensures StepDecided(service, spec, state, policy, NextStep(service, spec, state, policy).value)
  {
    hide Shaped, Discover, GridRules, Engine.FindRule, Decide, Select;
    var found := Discover(spec.puzzle, state, GridRules(spec, service.naming)).value;
    if found != [] {
      ShippedProposes(spec, service.naming, state, Select(found, policy).value);
    }
  }

  // ----- the whole decision -----

  /** Which answer a request gets: nothing in a completed session or an exam; a correction as soon as some mark
      is contradicted, naming the first such mark and the latest event that made it; no step while a mark is
      disputed or undecided; and otherwise the next step from the state the marks describe. */
  lemma {:induction false} HintTable(service: Service, spec: GridSpec, s: P.Session, atoms: seq<Atom>, policy: Policy,
      purpose: Identifier)
    requires Shaped(spec) && RequestHint(service, spec, s, atoms, policy, purpose).Ok?
    ensures var hint := RequestHint(service, spec, s, atoms, policy, purpose).value;
      var open := !s.view.status.Completed? && !s.view.mode.Exam?;
      var contradicted := SomeJudged(service, spec, atoms, Contradicted);
      var disputed := SomeJudged(service, spec, atoms, Disputed);
      var undecided := SomeJudged(service, spec, atoms, Undecided);
      && (hint.AlreadyComplete? <==> s.view.status.Completed?)
      && (hint.Withheld? <==> !s.view.status.Completed? && s.view.mode.Exam?)
      && (hint.CorrectionRequired? <==> open && contradicted)
      && (hint.CorrectionRequired? ==>
            && (exists i: nat :: JudgedAs(service, spec, atoms, i, Contradicted) && hint.atom == atoms[i]
                  && forall j: nat :: j < i ==> !JudgedAs(service, spec, atoms, j, Contradicted))
            && LastMade(s.events, hint.atom, hint.event))
      && (open && !contradicted && disputed ==> hint.VerificationDisputed?)
      && (hint.MarksUndecided? <==> open && !contradicted && !disputed && undecided)
      && (open && !contradicted && !disputed && !undecided ==>
            && StateFromMarks(service, spec, atoms, None, purpose).Ok?
            && StepDecided(service, spec, StateFromMarks(service, spec, atoms, None, purpose).value.0, policy, hint))
  {
    hide Shaped, Evaluate, ClassifyAll, FreshState, MarkedState, NextStep, StepDecided, LastMade, JudgedAs, SomeJudged;
    if !s.view.status.Completed? && !s.view.mode.Exam? {
      var (state, outcomes) := StateFromMarks(service, spec, atoms, None, purpose).value;
      var i := FirstIsFirst(service, spec, atoms);
      SomeOutcome(service, spec, atoms, Contradicted);
      SomeOutcome(service, spec, atoms, Disputed);
      SomeOutcome(service, spec, atoms, Undecided);
      var first := FirstContradicted(outcomes);
      if first.Some? {
        LastMakingIsLast(s.events, first.value);
      } else if NextStep(service, spec, state, policy).Ok? {
        StepTable(service, spec, state, policy);
        StepKinds(service, spec, state, policy, NextStep(service, spec, state, policy).value);
      }
    }
  }

  lemma {:induction false} StepKinds(service: Service, spec: GridSpec, state: PuzzleState, policy: Policy, hint: Hint)
    requires Shaped(spec) && StepDecided(service, spec, state, policy, hint)
    ensures !hint.AlreadyComplete? && !hint.Withheld? && !hint.CorrectionRequired? && !hint.MarksUndecided?
  {
    hide Shaped, Discover, GridRules, Status, Select;
  }

  // ----- the state supported marks describe -----

  /** The marks leave the value open. */
  ghost predicate Allows(marks: seq<Atom>, v: VariableId, x: ValueId) {
    ExclusionAtom(v, x) !in marks && forall y :: AssignmentAtom(v, y) in marks ==> y == x
  }

  lemma {:induction false} NarrowedExactly(candidates: CandidateDomains, atoms: seq<Atom>, b: Assignment)
    requires b.Keys == candidates.Keys && Drawn(candidates, b)
    requires forall atom :: atom in atoms ==> !atom.OtherAtom? && AtomHolds(atom, b)
    ensures NarrowByAll(candidates, atoms).Ok? && NarrowByAll(candidates, atoms).value.Keys == candidates.Keys
    ensures forall v, x :: v in candidates ==>
      (x in NarrowByAll(candidates, atoms).value[v] <==> x in candidates[v] && Allows(atoms, v, x))
  {
    hide Allows, AllowsOne, NarrowBy;
    NarrowingKeeps(candidates, atoms, b);
    if atoms != [] {
      var n := |atoms| - 1;
      var last := atoms[n];
      assert atoms == atoms[..n] + [last] && last in atoms;
      NarrowedExactly(candidates, atoms[..n], b);
      NarrowingKeeps(candidates, atoms[..n], b);
      var earlier := NarrowByAll(candidates, atoms[..n]).value;
      assert last.variable in b && b[last.variable] in earlier[last.variable];
      forall v, x | v in candidates
        ensures x in NarrowBy(earlier, last).value[v] <==> x in candidates[v] && Allows(atoms, v, x)
      {
        OneMoreAllows(atoms[..n], last, v, x);
        NarrowsByOne(earlier, last, v, x);
      }
    } else {
      forall v, x ensures Allows(atoms, v, x) {
        NothingForbids(v, x);
      }
    }
  }

  lemma {:induction false} NarrowsByOne(candidates: CandidateDomains, mark: Atom, v: VariableId, x: ValueId)
    requires !mark.OtherAtom? && mark.variable in candidates && v in candidates
    requires mark.AssignmentAtom? ==> mark.value in candidates[mark.variable]
    ensures NarrowBy(candidates, mark).Ok? && NarrowBy(candidates, mark).value.Keys == candidates.Keys
    ensures x in NarrowBy(candidates, mark).value[v] <==> x in candidates[v] && AllowsOne(mark, v, x)
  {
  }

  lemma {:induction false} NothingForbids(v: VariableId, x: ValueId)
    ensures Allows([], v, x)
  {
  }

  predicate AllowsOne(mark: Atom, v: VariableId, x: ValueId) {
    && mark != ExclusionAtom(v, x)
    && (mark.AssignmentAtom? && mark.variable == v ==> mark.value == x)
  }

  lemma {:induction false} OneMoreAllows(marks: seq<Atom>, mark: Atom, v: VariableId, x: ValueId)
    ensures Allows(marks + [mark], v, x) <==> Allows(marks, v, x) && AllowsOne(mark, v, x)
  {
  }

  lemma {:induction false} SupportedAre(outcomes: Outcomes, atom: Atom)
    ensures atom in SupportedBy(outcomes) <==> (atom, Supported) in outcomes
  {
    if outcomes != [] {
      var n := |outcomes| - 1;
      assert outcomes == outcomes[..n] + [outcomes[n]];
      SupportedAre(outcomes[..n], atom);
    }
  }

  /** The listed marks that are neither givens nor doubtful. */
  ghost predicate Counts(service: Service, spec: GridSpec, atoms: seq<Atom>, marks: seq<Atom>)
    requires Shaped(spec)
  {
    forall atom :: atom in marks <==>
      atom in atoms && atom !in spec.puzzle.givens && Evaluate(service, spec, atom) == Ok(Supported)
  }

  /** The state the hint starts from: of the genesis candidates just those the supported marks leave open, and
      the marks and whatever they settle asserted on top of what the genesis asserts. */
  lemma {:induction false} MarksStateExactly(service: Service, spec: GridSpec, atoms: seq<Atom>, purpose: Identifier,
      genesis: PuzzleState)
    returns (state: PuzzleState, marks: seq<Atom>)
    requires Shaped(spec) && Valid(spec) && TrustedService(service) && FreshState(spec, purpose) == Ok(genesis)
    requires HasSolution(spec.puzzle, genesis) && forall atom :: atom in atoms ==> !atom.OtherAtom?
    ensures StateFromMarks(service, spec, atoms, None, purpose).Ok?
    ensures state == StateFromMarks(service, spec, atoms, None, purpose).value.0 && Counts(service, spec, atoms, marks)
    ensures state.candidates.Keys == genesis.candidates.Keys
    ensures forall v, x :: v in genesis.candidates ==>
      (x in state.candidates[v] <==> x in genesis.candidates[v] && Allows(marks, v, x))
    ensures state.asserted == genesis.asserted + Elements(marks) + SingletonAtoms(state.candidates)
    ensures state.active == genesis.active && state.rejected == {} && state.contradictions == []
    ensures state.revision == spec.puzzle.revision && Live(spec, state) && SameSolutions(spec.puzzle, genesis, state)
  {
    hide Valid, FreshState, TrustedService, Solution, AtomHolds, Evaluate, Live, PuzzleState.Structural, ClassifyAll,
      SingletonAtoms, Allows, Faithful;
    MarksAreClassified(service, spec, atoms, None, purpose, genesis);
    var outcomes := ClassifyAll(service, spec, atoms, None).value;
    marks := SupportedBy(outcomes);
    MarkedStateIsFaithful(service, spec, purpose, genesis, marks);
    state := MarkedState(service, spec, genesis, marks).value;
    assert Live(spec, state) && SameSolutions(spec.puzzle, genesis, state) by { FaithfulMeans(spec, genesis, state); }
    GenesisParts(spec, purpose, genesis);
    var b :| Solution(spec.puzzle, genesis, b);
    SolutionParts(spec.puzzle, genesis, b);
    NarrowedExactly(genesis.candidates, marks, b);
    forall atom ensures atom in marks <==>
      atom in atoms && atom !in spec.puzzle.givens && Evaluate(service, spec, atom) == Ok(Supported)
    {
      SupportedAre(outcomes, atom);
      OutcomesAre(service, spec, atoms, atom, Supported);
    }
  }

  lemma {:induction false} FaithfulMeans(spec: GridSpec, genesis: PuzzleState, state: PuzzleState)
    requires Shaped(spec) && Faithful(spec, genesis, state) && HasSolution(spec.puzzle, genesis)
    ensures SameSolutions(spec.puzzle, genesis, state) && Live(spec, state)
  {
  }

  // ----- solvers that never give up -----

  /** The shipped backends over decisive solvers, and names told apart. */
  ghost predicate DecisiveService(service: Service, symbolic: B.Solver, tables: T.CpSolver) {
    && Decisive(symbolic) && DecisiveTables(tables)
    && service.backends == [SymbolicProofBackend(symbolic), TableProofBackend(tables)]
    && forall source :: Distinguishes(service.naming, source)
  }

  lemma {:induction false} DecisiveIsTrusted(service: Service, symbolic: B.Solver, tables: T.CpSolver)
    requires DecisiveService(service, symbolic, tables)
    ensures TrustedService(service)
  {
    hide Trusted, Distinguishes, B.Truthful, T.Truthful;
    ShippedBackendsAreTrusted(symbolic, tables);
  }

  lemma {:induction false} ClaimPrepares(spec: GridSpec, state: PuzzleState, obligation: Obligation)
    requires Grounded(spec, state) && Representable(obligation.conclusion, spec.puzzle)
    requires obligation.revision == spec.puzzle.revision && obligation.source == OfState(state)
    requires forall atom :: atom in obligation.assumptions ==> atom in state.asserted
    ensures Prepare(spec.puzzle, state, obligation).Ok?
  {
    hide ValidCategories, ValidGivens, HasBijection, CoversCategory, Grid.Admitted, Grid.ValidAnchor, ListsDiffer,
      AllAgree, HasSolution;
    forall c | c in spec.puzzle.constraints ensures !c.OtherConstraint? {
      assert ValidConstraint(spec, c);
    }
  }

  /** While all clues can be tabulated, the backends cross-verify exactly what all solutions agree on. */
  lemma {:induction false} VerifiedIff(service: Service, spec: GridSpec, symbolic: B.Solver, tables: T.CpSolver,
      state: PuzzleState, atom: Atom, premises: seq<Atom>)
    requires DecisiveService(service, symbolic, tables) && Grounded(spec, state) && Representable(atom, spec.puzzle)
    requires WithinLimits(spec.puzzle, state.candidates) && forall p :: p in premises ==> p in state.asserted
    ensures Status(service, spec, state, atom, premises).CrossVerified? <==> Entails(spec.puzzle, state, atom)
    ensures !Status(service, spec, state, atom, premises).Quarantined?
  {
    hide ValidCategories, ValidGivens, ValidConstraints, Grid.ValidAnchor, ValidState, Distinguishes, B.Verify, Decisive,
      LogicGridRuns.Stated, PuzzleState.Structural, Prepare, AtomHolds, T.Verify, DecisiveTables, WithinLimits, Decide, Solution, Trusted;
    var obligation := Obligation(
      service.obligationName(state.stateId, atom, premises), spec.puzzle.revision, OfState(state), premises, atom);
    DecisiveIsTrusted(service, symbolic, tables);
    ClaimPrepares(spec, state, obligation);
    AssertedAssumptionsAreFree(spec.puzzle, state, obligation);
    DecisionIsSound(service.backends, spec.puzzle, state, obligation);
    if Entails(spec.puzzle, state, atom) {
      var a :| Solution(spec.puzzle, state, a);
      assert Base(spec.puzzle, state, obligation, a);
      EntailedClaimIsConfirmed(symbolic, spec, state, obligation);
      TablesConfirm(tables, spec, state, obligation);
      PairAnswers(symbolic, tables, spec.puzzle, state, obligation);
    }
  }

  /** So a mark is supported if it is true in every solution, contradicted if it is false in every one, and
      undecided otherwise. */
  lemma {:induction false} DecisiveEvaluation(service: Service, spec: GridSpec, symbolic: B.Solver,
      tables: T.CpSolver, purpose: Identifier, genesis: PuzzleState, atom: Atom)
    requires Valid(spec) && DecisiveService(service, symbolic, tables) && Representable(atom, spec.puzzle)
    requires FreshState(spec, purpose) == Ok(genesis) && HasSolution(spec.puzzle, genesis)
    requires WithinLimits(spec.puzzle, genesis.candidates)
    ensures Evaluate(service, spec, atom) == Ok(
      if Entails(spec.puzzle, genesis, atom) then Supported
      else if Entails(spec.puzzle, genesis, Opposite(atom)) then Contradicted else Undecided)
  {
    hide ValidCategories, ValidGivens, ValidConstraints, Grid.ValidAnchor, DecisiveService, Solution, WithinLimits, Status,
      InitialState, AtomHolds, Grounded;
    var q := service.purposeName(atom);
    GenesisAlike(spec, purpose, q);
    var state := FreshState(spec, q).value;
    forall a ensures Solution(spec.puzzle, genesis, a) <==> Solution(spec.puzzle, state, a) {
      NamesDoNotMatter(spec.puzzle, genesis, state, a);
    }
    SameHasSolution(spec, genesis, state);
    GenesisIsGrounded(spec, q, q, 0);
    VerifiedIff(service, spec, symbolic, tables, state, atom, []);
    VerifiedIff(service, spec, symbolic, tables, state, Opposite(atom), []);
    EvaluationTable(service, spec, atom, state);
    if Entails(spec.puzzle, genesis, atom) {
      NotBothEntailed(spec.puzzle, genesis, atom);
    }
  }

  /** The marks of a sane session are about known items and rows. */
  lemma {:induction false} MarksAreRepresentable(s: P.Session, spec: GridSpec, atom: Atom)
    requires Shaped(spec) && PT.Sane(spec, s) && IsMark(atom, s.view.marks) && atom !in spec.puzzle.givens
    ensures Representable(atom, spec.puzzle)
  {
    hide P.Conflicts, Accepts, P.WellShaped, PT.Dated, P.MoveEvents, PT.StrictlyPeaceful, PT.Anchored, PT.Rooted,
      Anchor, Shaped;
    MarksAreRetained(s, spec, atom);
    var e :| e in s.events && MadeBy(e, atom);
    PS.MovesListed(s.events, e.body.id, e);
    assert P.CellRejection(spec, e.body.action).None?;
    GridIds(spec, atom.variable);
  }

  /** The state the supported marks describe is one a run could be in, and no clue of it needs more rows. */
  lemma {:induction false} MarksStateIsGrounded(service: Service, spec: GridSpec, s: P.Session, atoms: seq<Atom>,
      purpose: Identifier, genesis: PuzzleState) returns (state: PuzzleState)
    requires Valid(spec) && TrustedService(service) && FreshState(spec, purpose) == Ok(genesis) && PT.Sane(spec, s)
    requires HasSolution(spec.puzzle, genesis) && ListsMarks(atoms, s.view.marks)
    requires WithinLimits(spec.puzzle, genesis.candidates)
    ensures StateFromMarks(service, spec, atoms, None, purpose).Ok?
    ensures state == StateFromMarks(service, spec, atoms, None, purpose).value.0
    ensures
      && Grounded(spec, state)
      && WithinLimits(spec.puzzle, state.candidates)
      && SameSolutions(spec.puzzle, genesis, state)
  {
    hide ValidCategories, ValidGivens, ValidConstraints, Grid.ValidAnchor, TrustedService, Solution, InitialState, Live,
      WithinLimits, SingletonAtoms, StateFromMarks, Evaluate, Allows, PT.Sane, Representable;
    var marks: seq<Atom>;
    state, marks := MarksStateExactly(service, spec, atoms, purpose, genesis);
    GenesisIsGrounded(spec, purpose, purpose, 0);
    forall v | v in state.candidates ensures state.candidates[v] <= genesis.candidates[v] {
      forall x | x in state.candidates[v] ensures x in genesis.candidates[v] {
        assert v in genesis.candidates;
      }
    }
    LimitsPersist(spec.puzzle, state.candidates, genesis.candidates);
    forall atom | atom in state.asserted ensures Representable(atom, spec.puzzle) {
      if atom in marks {
        MarksAreRepresentable(s, spec, atom);
      } else if atom !in genesis.asserted {
        SettledIsRepresentable(spec, state, atom);
      }
    }
    GroundedParts(spec, genesis, state);
  }

  lemma {:induction false} SettledIsRepresentable(spec: GridSpec, state: PuzzleState, atom: Atom)
    requires Shaped(spec) && Live(spec, state) && atom in SingletonAtoms(state.candidates)
    ensures Representable(atom, spec.puzzle)
  {
    hide Valid, HasSolution, ListsDiffer, AllAgree;
    var v := atom.variable;
    assert state.candidates[v] <= FullDomain(spec.puzzle, v);
    assert atom.value in state.candidates[v];
  }

  lemma {:induction false} GroundedParts(spec: GridSpec, genesis: PuzzleState, state: PuzzleState)
    requires Grounded(spec, genesis) && Live(spec, state) && state.active == genesis.active
    requires state.rejected == {} && state.contradictions == []
    requires forall atom :: atom in state.asserted ==> Representable(atom, spec.puzzle)
    ensures Grounded(spec, state)
  {
  }

  /** What the classifications come to, read as statements about the solutions. */
  lemma {:induction false} JudgedIsMarked(service: Service, spec: GridSpec, s: P.Session, atoms: seq<Atom>,
      purpose: Identifier, genesis: PuzzleState, symbolic: B.Solver, tables: T.CpSolver)
    requires
      && Valid(spec)
      && DecisiveService(service, symbolic, tables)
      && PT.Sane(spec, s)
      && ListsMarks(atoms, s.view.marks)
    requires FreshState(spec, purpose) == Ok(genesis) && HasSolution(spec.puzzle, genesis)
    requires WithinLimits(spec.puzzle, genesis.candidates)
    ensures SomeJudged(service, spec, atoms, Contradicted) <==> SomeMark(spec, s, genesis, true)
    ensures !SomeJudged(service, spec, atoms, Disputed)
    ensures SomeJudged(service, spec, atoms, Contradicted) || SomeJudged(service, spec, atoms, Undecided)
      <==> SomeMark(spec, s, genesis, false)
  {
    hide ValidCategories, ValidGivens, ValidConstraints, Grid.ValidAnchor, DecisiveService, Solution, WithinLimits,
      InitialState, AtomHolds, PT.Sane, Evaluate, Entails;
    forall atom | IsMark(atom, s.view.marks) && atom !in spec.puzzle.givens
      ensures Evaluate(service, spec, atom) == Ok(
        if Entails(spec.puzzle, genesis, atom) then Supported
        else if Entails(spec.puzzle, genesis, Opposite(atom)) then Contradicted else Undecided)
      ensures Entails(spec.puzzle, genesis, atom) ==> !Entails(spec.puzzle, genesis, Opposite(atom))
    {
      MarksAreRepresentable(s, spec, atom);
      DecisiveEvaluation(service, spec, symbolic, tables, purpose, genesis, atom);
      if Entails(spec.puzzle, genesis, atom) {
        NotBothEntailed(spec.puzzle, genesis, atom);
      }
    }
    forall atom | IsMark(atom, s.view.marks) && atom !in spec.puzzle.givens
      ensures exists i: nat :: i < |atoms| && atoms[i] == atom && forall e ::
        JudgedAs(service, spec, atoms, i, e) <==> Evaluate(service, spec, atom) == Ok(e)
    {
      assert atom in atoms;
      var i :| 0 <= i < |atoms| && atoms[i] == atom;
    }
  }

  lemma {:induction false} StepIsAvailable(service: Service, spec: GridSpec, state: PuzzleState, policy: Policy,
      symbolic: B.Solver, tables: T.CpSolver, hint: Hint)
    requires
      && DecisiveService(service, symbolic, tables)
      && Grounded(spec, state)
      && WithinLimits(spec.puzzle, state.candidates)
    requires StepDecided(service, spec, state, policy, hint)
    ensures var found := Discover(spec.puzzle, state, GridRules(spec, service.naming));
      found.Ok? && if found.value == [] then hint.RulesExhausted? else hint.Available? && Entails(spec.puzzle, state, hint.conclusion)
  {
    hide ValidCategories, ValidGivens, ValidConstraints, Grid.ValidAnchor, Solution, WithinLimits, Status, Decisive, DecisiveTables,
      AtomHolds, Discover, GridRules, FromTechnique, LogicGridRuns.Stated, PuzzleState.Structural, ValidState, Select, Distinguishes;
    var found := Discover(spec.puzzle, state, GridRules(spec, service.naming)).value;
    DiscoverySucceeds(spec, state, service.naming);
    if found != [] {
      var c := Select(found, policy).value;
      var t :| FromTechnique(c, t, spec, state, service.naming);
      CandidateIsDeduced(spec, state, service.naming, c, t);
      VerifiedIff(service, spec, symbolic, tables, state, c.tieBreak.atom, c.premises);
    }
  }

  lemma {:induction false} CandidateIsDeduced(spec: GridSpec, state: PuzzleState, naming: Naming, c: Candidate,
      t: Technique)
    requires Grounded(spec, state) && FromTechnique(c, t, spec, state, naming)
    ensures
      && c.tieBreak.AtomText?
      && Entails(spec.puzzle, state, c.tieBreak.atom)
      && Representable(c.tieBreak.atom, spec.puzzle)
    ensures forall p :: p in c.premises ==> p in state.asserted
  {
    hide ValidCategories, ValidGivens, ValidConstraints, Grid.ValidAnchor, Solution, AtomHolds, LogicGridRuns.Stated,
      PuzzleState.Structural;
    var f :| Restates(c, t, f, spec, state, naming);
    var k :| k in spec.puzzle.constraints && Deduced(f, k, spec, state);
    SortKeeps(f.premises, PremiseOrder());
    OpenIsRows(spec, state, f.conclusion.variable);
    GridIds(spec, f.conclusion.variable);
  }

  /** With decisive solvers and clues that can be tabulated, the puzzle alone decides the answer: a correction
      exactly when some mark is false in every solution, no step while some mark is false in some, and then a
      step that holds in all of them whenever the rules find one. Nothing is ever disputed or left open. */
  lemma {:induction false} DecisiveHints(service: Service, spec: GridSpec, s: P.Session, atoms: seq<Atom>,
      policy: Policy, purpose: Identifier, genesis: PuzzleState, symbolic: B.Solver, tables: T.CpSolver)
    requires
      && Valid(spec)
      && DecisiveService(service, symbolic, tables)
      && PT.Sane(spec, s)
      && ListsMarks(atoms, s.view.marks)
    requires FreshState(spec, purpose) == Ok(genesis) && HasSolution(spec.puzzle, genesis)
    requires WithinLimits(spec.puzzle, genesis.candidates) && !s.view.status.Completed? && !s.view.mode.Exam?
    ensures RequestHint(service, spec, s, atoms, policy, purpose).Ok?
    ensures var hint := RequestHint(service, spec, s, atoms, policy, purpose).value;
      && (hint.CorrectionRequired? <==> SomeMark(spec, s, genesis, true))
      && (hint.MarksUndecided? <==> !SomeMark(spec, s, genesis, true) && SomeMark(spec, s, genesis, false))
      && (!SomeMark(spec, s, genesis, false) ==>
            && StateFromMarks(service, spec, atoms, None, purpose).Ok?
            && var found := Discover(spec.puzzle, StateFromMarks(service, spec, atoms, None, purpose).value.0,
                                     GridRules(spec, service.naming));
               && found.Ok? && (if found.value == [] then hint.RulesExhausted? else hint.Available?)
               && (hint.Available? ==> Entails(spec.puzzle, genesis, hint.conclusion)))
  {
    hide ValidCategories, ValidGivens, ValidConstraints, Grid.ValidAnchor, DecisiveService, Solution, WithinLimits, Status,
      InitialState, AtomHolds, Grounded, StateFromMarks, PT.Sane, RequestHint, Discover, GridRules, StepDecided, JudgedAs, LastMade,
      TrustedService;
    DecisiveIsTrusted(service, symbolic, tables);
    HintsAreAnswered(service, spec, s, atoms, policy, purpose, genesis);
    HintTable(service, spec, s, atoms, policy, purpose);
    var state := MarksStateIsGrounded(service, spec, s, atoms, purpose, genesis);
    JudgedIsMarked(service, spec, s, atoms, purpose, genesis, symbolic, tables);
    if !SomeMark(spec, s, genesis, false) {
      SameHasSolution(spec, genesis, state);
      StepIsAvailable(service, spec, state, policy, symbolic, tables, RequestHint(service, spec, s, atoms, policy, purpose).value);
    }
  }

  /** Some mark that is not a given is false in every solution, or at least in one. */
  ghost predicate SomeMark(spec: GridSpec, s: P.Session, genesis: PuzzleState, everywhere: bool)
    requires Shaped(spec)
  {
    exists atom :: IsMark(atom, s.view.marks) && atom !in spec.puzzle.givens
      && if everywhere then Entails(spec.puzzle, genesis, Opposite(atom)) else !Entails(spec.puzzle, genesis, atom)
  }
}

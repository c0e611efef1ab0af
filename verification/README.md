# Deductra verification

Deductra is a puzzle reasoner that carries its proofs with it. Human rules propose single assignments or
exclusions, two independent solver encodings refute the negation of each proposal, a reducer applies what
was refuted, and everything that happened is kept in hash-chained event streams. This project models that
machinery in Dafny and proves what it is for.

`dafny verify dfyconfig.toml` checks all of it.

## What is proved

**The verified solve loop** (`Engine`, `EngineTheorems`, `EngineTraces`). `Solution` says what a puzzle state means: one
candidate per variable, meeting every active constraint. With backends whose definite answers are right, a
run keeps that set exactly, its events replay to its final state, it stops after a bounded number of steps,
its trace does not depend on the order of the rules, and a solved trace with at least one step proves that
the puzzle has exactly one solution. Every turn and every status is pinned case by case, over the backends' own
answers. `Builder` covers the remaining case: with no steps at all, only the final checker decides whether there is
a solution.

**Two encodings of one clue language** (`Equations`, `EquationsSymbolic`, `EquationsVerdicts`, `Smt`, `Grid`,
`SymbolicBackend`, `CpSat`, `Coordinator`). Symbolic formulas with validity flags and enumerated truth tables mean
the same, over Euclidean and floored division, sums of conditional terms and exact rationals; both backends are as
truthful as their solvers, so they never contradict each other. Solvers are functions; an ideal symbolic solver and
an exhaustive enumeration show that the truthfulness assumed of them can be met.

**Logic Grid rules** (`LogicGrid`, `LogicGridRules`, `LogicGridSoundness`, `LogicGridDiscovery`,
`LogicGridCompleteness`, `LogicGridTables`, `LogicGridRuns`). Every finding of the five shipped rules is well
formed, distinct and true in all solutions, and what they discover in a state is exactly what is described from
candidates and clues. With both shipped backends over decisive solvers, a whole solve from a valid
solvable puzzle never has a proposal refused if the truth tables fit their limit at genesis, and has every
proposal refused if they do not. The final checker accepts exactly the solutions.

**The guided builder** (`Templates`, `Drafts`, `DraftTheorems`, `DraftGenesis`, `DraftLimits`, `DraftProofs`,
`Builder`). Clean drafts compile, exactly when their revision number is short enough, to valid specifications
whose clues mean what their templates say. The uniqueness claim attached to them is right, and which drafts the
table limit shuts out of it can be read off the draft.

**Play sessions** (`Play`, `PlayTheorems`, `PlayRuns`, `PlaySteps`). Each action does exactly what is stated of
it. Over every run of actions the incrementally kept marks are those of the history tree, undo and redo and
checkpoints restore what they should, givens never change, strict histories stay free of conflicts, completion is
final and right, and replay is a two-way round trip.

**Memory and attempts** (`Projections`, `ProjectionTheorems`, `LearningTheorems`, `ProjectionContents`,
`Normalization`, `NormalizationTheorems`, `NormalizationContents`, `AttemptEvidence`, `AttemptTables`,
`AttemptStore`, `AttemptCalls`, `AttemptDatabase`, `AttemptRuns`, `AttemptContents`). Rebuilt projections count
events and forget enumeration order, normalized attempts are always rebuilt, and the
attempt store's calls refine functions of an archive over every run.

**Hints** (`Assistance`, `AssistanceTheorems`, `HintDecisions`), **retained branches** (`Branches`,
`BranchTheorems`, `BranchSteps`) and **the event store** (`EventStore`, `EventStoreTheorems`, `Events`) are proved
in the same way: invariants over every run, the exact conditions of every answer and every transition, the
meaning of every branch, and a store with two tables that refines a map from trace to events.

## How things are represented

- Identifiers are integers; only their order and equality matter. `Drafts` derives identifier text as strings
  and proves it free of collisions before any injective encoding as integers.
- A digest is the content it was computed from, so equal digests are equal contents. Identifiers that the
  code derives from digests are function parameters; where the code relies on them being distinct, the lemma
  asks for it (`Distinguishes`).
- Solver calls, rule lists and policies are values and function-valued fields. A backend, and a rule, is a
  named function. `Truthful` and `Trusted` assume that definite answers are right; `Decisive` and
  `DecisiveTables` assume besides that a solver does not give up, so time limits are left out there.
- A puzzle's variables and domains are maps keyed by identifier, which builds in the uniqueness its validator
  demands; asserted atoms are sets, as in the code, where their order is canonical.
- Exceptions are `Result` values. Their classes are kept apart where callers can tell them apart.
- Specifications are validated when they are constructed, so the Logic Grid theorems ask for `Valid`. The
  lemma `DraftTheorems.CompiledIsValid` shows how many such specifications there are.
- Play digests cover a view of the session; a session is its view and its events, and both of its own digests
  are functions of these. Observation and projection digests are terms in the same way.
- Proofs by induction are written out: every lemma carries `{:induction false}`.

## Where code and documentation part

- The Logic Equations truth table treats a negative modulus as undefined, the checker and the rules follow
  Python and accept it. The model follows both codes; `EquationsVerdicts.ComparisonVerdictsAgreeIff` and
  `VerdictsAgreeIff` say exactly when a comparison and a whole clue are judged alike, `NegativeModulusSplits` that
  the difference is real.
- Every deduction is meant to be confirmed by both backends, but the truth-table backend refuses a state in which
  some clue, needed or not, has more than a million combinations, and then every proposal is rejected. A draft with
  no messages and a solution can so be left unproven with a stalled run, as `DraftProofs.WideDraftIsStuck` shows:
  eight items a category and a clue about eight of them. `LogicGridRuns.GridSolveFollowsLimits` and
  `DraftLimits.DraftLimitsAreExact` give the exact condition.
- A draft without messages is meant to compile. Validation does not bound the revision number, and identifiers are
  limited to 255 characters, so a long one fails. `DraftTheorems.CompilesExactly` gives the exact condition,
  `LongRevisionFails` the input.
- A trace may be SOLVED although nothing was ever checked for satisfiability, when the genesis already has one
  candidate per variable. `EngineTheorems.SolvedWithoutStepsProvesAtMostOne` and `Builder.ProofIsRight` say what
  such a trace is worth.
- An append to an attempt without events does not compare validation modes. In another mode it is accepted, and the
  attempt can never be read again. `AttemptRuns.AppendStaysReadable` gives the exact condition, `ModeCanBeLost` the
  inputs.
- A rebuilt memory promises to be independent of enumeration order; streams that share an attempt identifier are
  accepted and break that. `ProjectionTheorems.OrderIndependence` gives the exact condition.

## Model

| member | source | states |
|---|---|---|
| State.CreateInitialState | src/deductra/reasoning/state.py:164-218 | The narrowing and given loops compute the genesis function: every domain constraint intersects, every given must still be possible when reached, and the result is validated. |
| State.ValidateState | src/deductra/reasoning/state.py:221-266 | The one-pass validator, which keeps a dictionary of first assignments, answers true exactly when revision, variables, domains, asserted atoms, constraints and all all-different lists agree. |
| State.CollectAssignments | src/deductra/reasoning/state.py:238-253 | The dictionary filled from the asserted atoms holds exactly the asserted assignments whenever all atoms agree with the candidates. |
| State.SelectedDistinct | src/deductra/reasoning/state.py:258-264 | The list of selected values has no repeat exactly when no two listed positions clash. |
| State.AddSingletons | src/deductra/reasoning/state.py:200-202 | The loop adds exactly the assignment atoms of single-candidate domains. |
| Solutions.InitialSolutions | src/deductra/reasoning/state.py:164-218 | The solutions of the genesis state are exactly the complete assignments that satisfy every constraint and every given. |
| Solutions.NarrowingMeans | src/deductra/reasoning/state.py:177-181 | Applying all domain constraints leaves exactly the assignments that meet them. |
| Solutions.GivensMean | src/deductra/reasoning/state.py:183-198 | Applying the givens in order leaves exactly the assignments that meet them. |
| Solutions.GivensExactly | src/deductra/reasoning/state.py:183-198 | Applying the givens in order succeeds exactly when each names a candidate and none excludes a later one, and leaves exactly the candidates open to all of them. |
| Solutions.GenesisExactly | src/deductra/reasoning/state.py:164-218 | A puzzle has a genesis state exactly when its domain constraints and givens name known variables, every given is possible when reached, and the state so described is sound and valid; every field of it is given. |
| Reducer.ReduceState | src/deductra/reasoning/reducer.py:59-118 | The in-place update of candidates and asserted atoms computes the reduction function, errors included. |
| Reducer.ReductionMeans | src/deductra/reasoning/reducer.py:59-118 | A reduced state has exactly the solutions of the source that agree with the event's claim. |
| Reducer.EntailedReductionKeepsSolutions | src/deductra/reasoning/reducer.py:59-118 | When every solution agrees with the claim, no solution is lost or gained. |
| Reducer.ReductionExactly | src/deductra/reasoning/reducer.py:43-118 | A state is reduced by exactly the sealed, later events about it that claim something open and assert nothing it has rejected; candidates lose exactly what the event removes, and exactly that, and what it settles, becomes asserted. |
| Events.VerifyChain | src/deductra/reasoning/integrity.py:86-118 | The report names the first position whose order, linkage, digest or identity fails, in that order of tests, and distrusts exactly the events from there on; it is valid if and only if no position fails. |
| Events.IntactExactly | src/deductra/reasoning/integrity.py:86-118 | Intact are exactly the sequences of sealed events whose numbers are their positions, each following the one before it, all of one trace and one revision. |
| Events.HeadCommitsToHistory | src/deductra/reasoning/integrity.py:39-41 | Two intact chains with the same head hash are equal event for event. |
| Events.IntactExtend | src/deductra/reasoning/integrity.py:86-118 | Extending an intact chain keeps it intact exactly when the new event is faultless at its place. |
| Events.IntactIdentity | src/deductra/reasoning/integrity.py:104-107 | An intact chain has one trace and one puzzle revision throughout. |
| Encoding.PreparedPoses | src/deductra/verification/encoding.py:98-181 | A prepared problem states exactly the source state's solutions that meet the assumptions, together with the negation of the claim. |
| Encoding.PreparedIsWellEncoded | src/deductra/verification/encoding.py:132-181 | Preparation fails closed: every atom kept names a declared value of a known variable and candidates lie inside domains. |
| Encoding.PreparedExactly | src/deductra/verification/encoding.py:98-181 | Preparation succeeds exactly for an obligation about this very valid, uncontradicted state, when everything cited is representable and no active constraint is of an unknown kind. |
| Encoding.AssertedAtomsHold | src/deductra/verification/encoding.py:112-138 | In a valid state the asserted atoms hold in every solution, so asserting them to a backend adds nothing. |
| Encoding.OppositeIsNegation | src/deductra/verification/encoding.py:143-153 | The counter-atom is false exactly when the claim is true. |
| Equations.FloorDivModSpec | src/deductra/families/logic_equations/checker.py:81-93 | The division used for Python's `divmod` is the floored one: the two results rebuild the dividend and the remainder has the sign of the divisor. |
| Equations.ExactDivisionAgrees | src/deductra/verification/logic_equations_z3.py:78-89 | Floored and Euclidean division agree on which divisions are exact and on the quotient then. |
| EquationsSymbolic.EncodingMeansTableValue | src/deductra/verification/logic_equations_z3.py:33-93 | The symbolic term's validity flag holds exactly where the truth-table evaluator computes a number, and the term then has that number, whatever division by zero means to the solver. |
| EquationsSymbolic.DivisionMeans | src/deductra/verification/logic_equations_z3.py:78-89 | Guarded Euclidean division is valid exactly on nonzero, exact floored divisions, with the floored quotient. |
| EquationsSymbolic.ModulusMeans | src/deductra/verification/logic_equations_z3.py:78-91 | Guarded Euclidean remainder is valid exactly for positive divisors, with the floored remainder. |
| EquationsSymbolic.FormulaMeansTableVerdict | src/deductra/verification/logic_equations_z3.py:96-142 | A model satisfies the encoded clue exactly when the truth-table evaluator accepts the numbers its codes stand for. |
| EquationsSymbolic.EncodedVariablesAreIntegers | src/deductra/verification/logic_equations_z3.py:33-46 | Where the symbolic encoder succeeds, the clue is of a supported kind and every variable it names has integer values. |
| EquationsVerdicts.EvaluatorsDiffer | src/deductra/families/logic_equations/checker.py:50-95 | The checker's and the truth table's numeric evaluators give the same result unless a negative modulus was met, where only the checker goes on. |
| EquationsVerdicts.ComparisonVerdictsAgreeIff | src/deductra/families/logic_equations/checker.py:98-121 | Two numeric terms are compared alike under every relation if and only if no negative modulus is met on the way to two numbers the checker computes. |
| EquationsVerdicts.RelatedVerdictsAgreeIff | src/deductra/families/logic_equations/checker.py:98-121 | Under one given relation the verdicts part exactly when a negative modulus is met and the two numbers are so related. |
| EquationsVerdicts.TableWithholds | src/deductra/verification/logic_equations_cpsat.py:129-164 | The truth table's verdict on any clue is the checker's on the clue whose comparisons reached by a negative modulus are replaced by false. |
| EquationsVerdicts.VerdictsAgreeIff | src/deductra/families/logic_equations/checker.py:98-131 | Checker and truth table agree on a whole clue if and only if that replacement leaves the checker's verdict unchanged. |
| EquationsVerdicts.NothingWithheld | src/deductra/families/logic_equations/checker.py:98-131 | The replacement changes nothing exactly when no comparison inside the clue meets a negative modulus. |
| EquationsVerdicts.VerdictsAgree | src/deductra/families/logic_equations/checker.py:98-131 | So without negative moduli the two agree on every clue. |
| EquationsVerdicts.NegativeModulusSplits | src/deductra/verification/logic_equations_cpsat.py:114-126 | For every negative constant divisor there is a clue the checker accepts and the truth table rejects. |
| EquationsVerdicts.VerdictsCanDiffer | src/deductra/families/logic_equations/checker.py:90-93 | The concrete clue `x % -2 == -1` at 1 on which the two part. |
| Grid.FormulaMeansVerdict | src/deductra/verification/logic_grid_z3.py:103-167 | The Logic Grid formula is satisfied by a model exactly when the truth-table evaluator accepts the model's codes, and evaluation never raises there. |
| Grid.CodeTermsSelect | src/deductra/verification/logic_grid_z3.py:40-53 | The sum of conditional terms is the number of the value whose code the variable has. |
| Grid.VerdictsAgree | src/deductra/families/logic_grid/checker.py:60-143 | On every admitted clue the truth table, comparing codes, and the checker, comparing identifiers, ordinals and exact numbers, give the same verdict; neither raises, and the symbolic encoder accepts the clue. |
| Grid.AnchorSemantics | src/deductra/families/logic_grid/checker.py:44-57 | The loop fills both dictionaries with the ordinal (declared, or one-based position) and the number of each row. |
| Grid.AnchorLookup | src/deductra/families/logic_grid/checker.py:44-57 | With distinct identifiers, each row's own ordinal and number are found under its identifier. |
| Grid.VerdictIsLocal | src/deductra/families/logic_grid/rules.py:189-206 | A verdict depends only on the variables the collector finds in the clue. |
| SymbolicBackend.ModelsAreSolutions | src/deductra/verification/z3_backend.py:80-139 | The models of the base formulas are exactly the encodings of solutions that meet the assumptions. |
| SymbolicBackend.CounterModels | src/deductra/verification/z3_backend.py:158-164 | With the negated claim added they are exactly the counterexamples. |
| SymbolicBackend.SatisfiableIffBase | src/deductra/verification/z3_backend.py:136-157 | The base check answers whether the source state has such a solution. |
| SymbolicBackend.SatisfiableIffCounterexample | src/deductra/verification/z3_backend.py:158-201 | The second check answers whether the claim has a counterexample. |
| SymbolicBackend.VerifyIsTruthful | src/deductra/verification/z3_backend.py:57-203 | With a truthful solver, UNSAT means that solutions exist and all meet the claim, SAT that one does not. |
| SymbolicBackend.IdealIsTruthful | src/deductra/verification/z3_backend.py:140-201 | The truthfulness assumed of the solver can be met. |
| SymbolicBackend.DecisiveConfirms | src/deductra/verification/z3_backend.py:140-176 | A solver that never gives up confirms every claim without a counterexample. |
| SymbolicBackend.DecisiveAnswer | src/deductra/verification/z3_backend.py:57-203 | Over a solver that never gives up the answer is decided by the puzzle: invalid if it cannot be encoded or the source has no solution, else SAT exactly if the claim has a counterexample, else UNSAT. |
| SymbolicBackend.OpenAnswer | src/deductra/verification/z3_backend.py:136-201 | The answer is UNKNOWN exactly when the solver gave up on the source, or solved it and gave up on the negated claim. |
| CpSat.ProductMember | src/deductra/verification/logic_equations_cpsat.py:180-206 | The product enumerates every way to pick one entry of each code domain, and nothing else. |
| CpSat.KeepRows | src/deductra/verification/logic_equations_cpsat.py:199-210 | The loop keeps exactly the rows the evaluator accepts, in order. |
| CpSat.CpModel.AddArithmetic | src/deductra/verification/logic_equations_cpsat.py:167-210 | The method adds exactly the table of accepted rows to the model, or leaves the model alone where the code refuses. |
| CpSat.EquationTableMeans | src/deductra/verification/logic_equations_cpsat.py:167-210 | Among current candidates, the Logic Equations table accepts exactly the codes on which the clue holds. |
| CpSat.GridTableMeans | src/deductra/verification/logic_grid_cpsat.py:168-202 | Among current candidates, the Logic Grid table accepts exactly the codes on which the clue holds. |
| CpSat.ModelMeansBase | src/deductra/verification/cpsat_backend.py:86-128 | The CP model is solved exactly by the solutions that meet the assumptions, although it tables only current candidates. |
| CpSat.SolvableIffCounterexample | src/deductra/verification/cpsat_backend.py:153-171 | With the negated claim added it is solvable exactly when the claim has a counterexample. |
| CpSat.VerifyIsTruthful | src/deductra/verification/cpsat_backend.py:66-183 | With a truthful solver, the truth-table backend's definite answers are right about the puzzle. |
| CpSat.EnumerationIsTruthful | src/deductra/verification/cpsat_backend.py:130-171 | Exhaustive enumeration is such a solver. |
| CpSat.DecisiveConfirms | src/deductra/verification/cpsat_backend.py:66-183 | Once its model is built, a solver that never gives up confirms every claim that the base solutions, of which there is one, all meet. |
| CpSat.DecisiveAnswer | src/deductra/verification/cpsat_backend.py:66-183 | Over a solver that never gives up the same puzzle-level decision, with tables in place of formulas. |
| CpSat.OpenAnswer | src/deductra/verification/cpsat_backend.py:130-171 | The answer is UNKNOWN exactly when the solver gave up on the source, or did not find it infeasible and gave up on the negated claim. |
| Coordinator.ShippedBackendsAreTrusted | src/deductra/verification/coordinator.py:32-72 | Both shipped backends can be trusted as far as their solvers can. |
| Coordinator.DecisionTable | src/deductra/verification/coordinator.py:32-72 | Over the backends' own answers: quarantined iff one is SAT and one UNSAT; otherwise rejected if one is INVALID; otherwise inconclusive if one is UNKNOWN; accepted iff there is a backend and all are UNSAT, cross-verified iff there are then two; rejected in all other cases; one certificate per backend records its answer. |
| Coordinator.DecisionIsSound | src/deductra/verification/coordinator.py:32-72 | Trusted backends are never quarantined, and an accepted claim holds in every solution that meets the assumptions, of which there is one. |
| Coordinator.AssertedAssumptionsAreFree | src/deductra/verification/coordinator.py:32-72 | Assumptions the state asserts do not restrict its solutions. |
| Coordinator.ApplyVerified | src/deductra/verification/coordinator.py:75-104 | A result is only ever the plain reduction, for an accepted decision about this very obligation and conclusion. |
| Coordinator.AppliedExactly | src/deductra/verification/coordinator.py:75-104 | An event is applied exactly when its obligation was accepted, is about this state and states just this conclusion, and the reducer takes it; otherwise the refusal says so. |
| Rules.DiscoverApplications | src/deductra/reasoning/rules.py:119-157 | The appending loop computes the discovery function: checked candidates of all rules, unique identifiers, canonical order. |
| Rules.DiscoveryExactly | src/deductra/reasoning/rules.py:119-157 | Discovery succeeds exactly for the state's own puzzle, rules with identities of their own that find only their own candidates in this state, and identifiers offered once; it finds exactly what some rule registered for the family offers. |
| Rules.DiscoveredBelong | src/deductra/reasoning/rules.py:136-141 | Every discovered candidate names a registered rule and the current state. |
| Rules.DiscoveryForgetsOrder | src/deductra/reasoning/rules.py:119-157 | Registration order does not matter. |
| Rules.SelectionIsStrict | src/deductra/reasoning/policy.py:20-46 | Under every policy the selected candidate is strictly ahead of every other one. |
| Rules.PolicyPrefers | src/deductra/reasoning/policy.py:20-46 | Teaching-first selects a least cost, maximal gain and shortest trace a greatest gain, the latter at least cost; ties go to the lowest rank, rule, version, tie-break and identifier. |
| Rules.DiscoveredInOrder | src/deductra/reasoning/rules.py:146-157 | Discovery lists candidates in that canonical order. |
| Sorting.SortForgetsOrder | src/deductra/reasoning/rules.py:132-157 | Sorting by keys that tell the entries apart forgets the order it was given. |
| Sorting.SortKeeps | src/deductra/reasoning/rules.py:146-157 | Sorting keeps the entries and orders them. |
| Sorting.MinByIsLeast | src/deductra/reasoning/policy.py:37-46 | The selected minimum is below every entry. |
| Engine.Solve | src/deductra/reasoning/engine.py:270-452 | The while loop, terminating by surplus candidates and then untried proposals, computes the run function, errors included. |
| Engine.TurnMakesProgress | src/deductra/reasoning/engine.py:294-439 | Every turn that goes on settles a candidate value or uses up an untried proposal. |
| Engine.AcceptedEventUsesSlack | src/deductra/reasoning/engine.py:241-253 | An accepted event removes at least one candidate. |
| Engine.Resolve | src/deductra/reasoning/engine.py:372-439 | A turn changes the state only through an accepted verdict, and then by exactly the reduction of the sealed, linked event. |
| Engine.EventFor | src/deductra/reasoning/engine.py:333-371 | The event is sealed, continues the chain, and claims exactly the conclusion. |
| EngineTheorems.AuthorityIsSound | src/deductra/verification/rule_authority.py:29-74 | An accepted conclusion holds in every solution of the current state, which has one; trusted backends quarantine nothing. |
| EngineTheorems.TurnKeepsSound | src/deductra/reasoning/engine.py:294-439 | Each turn keeps: same solutions as the initial state, events that replay to the current state, a linked chain, and the step bound. |
| EngineTheorems.OutcomeProves | src/deductra/reasoning/engine.py:270-452 | Any trace returned with trusted backends has the initial state's solutions at its end, replays to its final state, is never quarantined, is solved exactly when the final state is, and reaches its limit only after that many steps. |
| EngineTheorems.SolvedTraceProvesUniqueness | src/deductra/reasoning/engine.py:294-439 | A solved trace with at least one step means that the initial state has exactly one solution, the one the final state spells out. |
| EngineTheorems.SolvedWithoutStepsProvesAtMostOne | src/deductra/reasoning/engine.py:294-439 | A solved trace without steps only says that there is at most one. |
| EngineTheorems.StepsAreBounded | src/deductra/reasoning/engine.py:294-452 | Whatever the backends answer, at most the sum of (candidates - 1) steps are applied; a run that reaches its limit had a limit of at most that sum, and below it unless it started in a state marked contradictory. |
| EngineTheorems.TrustedLimitLeavesRoom | src/deductra/reasoning/engine.py:294-452 | With trusted backends such a limit is always below the sum. |
| EngineTheorems.StalledTriedAll | src/deductra/reasoning/engine.py:294-305 | Every run that stalls has on record an attempt at each proposal its rules discover in the last state; without accepted events that is the initial state. |
| EngineTraces.ChoiceIsPreferred | src/deductra/reasoning/engine.py:294-313 | A turn chooses what the policy prefers among everything discovered and not yet tried in this state, and nothing exactly when there is nothing. |
| EngineTraces.RuleProposesExactly | src/deductra/reasoning/engine.py:215-253 | A candidate leads to a conclusion exactly when the rule registered under its reference restates it, cites what is asserted and active, and concludes one open thing about a variable it names. |
| EngineTraces.TurnTable | src/deductra/reasoning/engine.py:305-439 | Case by case: no candidate stalls the run, an invalid proposal is recorded as rejected, and otherwise the backends' decision on the conclusion appends and applies one event, is recorded and passed over, or is recorded and ends the run. |
| EngineTraces.TraceTells | src/deductra/reasoning/engine.py:270-452 | Whatever the backends answer, the accepted attempts of a trace are its events in order, at most as many as allowed; each final status is given exactly by the last state, the number of events or the last attempt, and no earlier attempt is open or contradictory. |
| EngineTheorems.OutcomeForgetsOrder | src/deductra/reasoning/engine.py:259-268 | The whole trace is the same for every ordering of the registered rules. |
| LogicGrid.CheckSolution | src/deductra/families/logic_grid/checker.py:146-209 | The checker's passes accept exactly clean listings that cover the variables and meet every given, bijection and clue. |
| LogicGrid.Collect | src/deductra/families/logic_grid/checker.py:162-182 | The dictionary pass notices every unknown or repeated entry and otherwise records the listing. |
| LogicGrid.ClueAgrees | src/deductra/families/logic_grid/checker.py:200-206 | A clue holds for the backends exactly when the checker evaluates it to true, and the checker never raises on it. |
| LogicGrid.CheckerAcceptsSolutions | src/deductra/families/logic_grid/checker.py:146-209 | For a valid specification the final checker accepts exactly the solutions of the genesis state. |
| LogicGrid.ListedReadsBack | src/deductra/families/logic_grid/play.py:932-938 | Listing an assignment and reading it back is the identity. |
| LogicGridRules.FindAssociations | src/deductra/families/logic_grid/rules.py:340-425 | The association loop finds exactly the matches and mismatches the rule describes. |
| LogicGridRules.FindBijections | src/deductra/families/logic_grid/rules.py:436-500 | The bijection loops find exactly the occupied and hidden rows. |
| LogicGridRules.FindCompletions | src/deductra/families/logic_grid/rules.py:572-644 | The completion loop finds exactly the bound exclusions and trial conclusions, and fails exactly when a trial evaluation raises. |
| LogicGridRules.TryValues | src/deductra/families/logic_grid/rules.py:606-633 | Trying the values one by one splits them into valid and invalid ones, or raises when one evaluation does. |
| LogicGridRules.BoundsAreExact | src/deductra/families/logic_grid/rules.py:506-557 | Order bounds exclude a value if and only if it has no partner among the other variable's candidates. |
| LogicGridSoundness.AssociationsAreDeduced | src/deductra/families/logic_grid/rules.py:335-428 | Every direct-association finding answers an open question from asserted premises, and its conclusion holds in all solutions. |
| LogicGridSoundness.OccupiedIsDeduced | src/deductra/families/logic_grid/rules.py:448-467 | A row taken by one item is excluded for the others: well formed and entailed. |
| LogicGridSoundness.HiddenIsForced | src/deductra/families/logic_grid/rules.py:471-499 | With as many items as rows, a row open to one item only is that item's row in every solution. |
| LogicGridSoundness.ClashingRows | src/deductra/families/logic_grid/rules.py:448-467 | A valid state never settles two items of one category on the same row. |
| LogicGridSoundness.BoundsAreDeduced | src/deductra/families/logic_grid/rules.py:590-603 | Bound exclusions are well formed and entailed. |
| LogicGridSoundness.TrialReadsCandidate | src/deductra/families/logic_grid/rules.py:606-624 | With one variable open, a trial is the clue's verdict on the assignment that takes the value. |
| LogicGridSoundness.CompletedIsDeduced | src/deductra/families/logic_grid/rules.py:604-644 | Trial conclusions are well formed and entailed. |
| LogicGridSoundness.TrialsNeverRaise | src/deductra/families/logic_grid/rules.py:267-332 | In a state with a solution no trial evaluation raises. |
| LogicGridDiscovery.RulesAreSound | src/deductra/families/logic_grid/rules.py:335-647 | On any valid state of a valid specification with a solution, no rule raises, all findings are deduced, and no two share conclusion and constraint. |
| LogicGridDiscovery.BijectionsApart | src/deductra/families/logic_grid/rules.py:436-500 | The bijection rule never finds the same conclusion twice for one constraint. |
| LogicGridDiscovery.DiscoverySucceeds | src/deductra/reasoning/rules.py:119-157 | Discovery with the five shipped rules never fails there: candidate identifiers are distinct and each candidate restates a deduced finding. |
| LogicGridDiscovery.FindingsAreDiscovered | src/deductra/reasoning/rules.py:119-157 | And it misses nothing: each finding of each rule becomes a discovered candidate. |
| LogicGridDiscovery.NamingsExist | src/deductra/families/logic_grid/rules.py:84-106 | Candidate names that tell conclusion, rule and constraint apart in every state exist. |
| LogicGridCompleteness.DiscoveredExactly | src/deductra/families/logic_grid/rules.py:335-647 | In a live state the five rules discover, for each constraint, exactly the described deductions with the described premises, gain and cost, and nothing else. |
| LogicGridCompleteness.MatchesExactly | src/deductra/families/logic_grid/rules.py:357-411 | An equation settles an item on the only row both items may take, and excludes a row ruled out for the other item while they share several; each time with what is cited for it. |
| LogicGridCompleteness.BijectionsExactly | src/deductra/families/logic_grid/rules.py:436-500 | A bijection excludes exactly rows taken by another item, and settles an open item exactly on a row ruled out for all others. |
| LogicGridCompleteness.BoundsExactly | src/deductra/families/logic_grid/rules.py:506-557 | An order clue of two open items excludes exactly the candidates of either that have no partner. |
| LogicGridCompleteness.CompletionsExactly | src/deductra/families/logic_grid/rules.py:572-644 | With one open item left a clue settles it on its only fitting row, or else excludes exactly the rows that do not fit, fit meaning that the clue holds of such an assignment; order clues also do the above. |
| LogicGridDiscovery.CandidatesValidate | src/deductra/reasoning/engine.py:215-253 | Every candidate becomes a proposal that passes validation, with duplicate-free premises and a conclusion true in all solutions. |
| LogicGridTables.ClueIsTabled | src/deductra/verification/logic_grid_cpsat.py:168-202 | The truth table of an admitted clue is built, without an error in any row, exactly when its variables have at most a million combinations of candidates. |
| LogicGridTables.ModelIsBuilt | src/deductra/verification/cpsat_backend.py:86-128 | So the table model of a state is built exactly when every clue of the specification is within that limit. |
| LogicGridTables.TablesConfirm | src/deductra/verification/cpsat_backend.py:66-183 | A decisive table solver confirms an entailed claim exactly when every clue is within the limit, and otherwise reports an invalid encoding. |
| LogicGridTables.LimitsPersist | src/deductra/verification/logic_grid_cpsat.py:184-190 | Clues that fit the limit go on fitting it as candidates disappear. |
| LogicGridTables.EnumerationIsDecisive | src/deductra/verification/cpsat_backend.py:130-171 | Exhaustive enumeration is a decisive table solver. |
| LogicGridRuns.EntailedClaimIsConfirmed | src/deductra/verification/z3_backend.py:57-203 | A decisive symbolic backend confirms every entailed claim about a valid specification. |
| LogicGridRuns.ClaimIsJudged | src/deductra/verification/coordinator.py:32-72 | The two shipped backends together cross-verify an entailed open conclusion exactly when every clue is within the limit, and reject it otherwise. |
| LogicGridRuns.ApplyingKeepsGrounded | src/deductra/reasoning/reducer.py:59-118 | Applying an entailed open conclusion succeeds and leaves a valid, structurally sound, solvable state. |
| LogicGridRuns.TurnSettles | src/deductra/reasoning/engine.py:294-439 | Each turn with the shipped rules and both backends proves and applies what it selects, or stalls, while the clues are within the limit; otherwise it rejects what it selects. |
| LogicGridRuns.GridSolveFollowsLimits | src/deductra/reasoning/engine.py:270-452 | From the genesis of a valid, solvable specification: if every clue is within the limit there, every attempt of the whole run is cross-verified and the run ends solved, stalled or at its limit; if one is not, everything discovered at genesis is attempted and rejected, and the run stalls without an event. |
| Templates.Walk | src/deductra/families/logic_grid/builder.py:738-764 | The explicit-stack walk finds a numeric template, and an association inside one category, exactly when some node is one. |
| Templates.CompiledMeans | src/deductra/families/logic_grid/builder.py:827-873 | A compiled predicate evaluates, without raising, to exactly the stated meaning of its template. |
| Templates.CompiledIsAdmitted | src/deductra/families/logic_grid/specification.py:292-420 | A compiled predicate passes the specification's expression checks and names an item. |
| Drafts.RefTextsDiffer | src/deductra/families/logic_grid/builder.py:795-824 | Derived value and variable identifiers collide for no two item keys. |
| Drafts.ConstraintTextsDiffer | src/deductra/families/logic_grid/builder.py:970-1002 | A clue's constraint identifier is never a bijection's. |
| DraftTheorems.CompiledCategories | src/deductra/families/logic_grid/specification.py:54-138 | The compiled categories partition the variables over distinct domains of one size. |
| DraftTheorems.CompiledIsValid | src/deductra/families/logic_grid/specification.py:54-138 | What a draft without INVALID or INCOMPLETE messages is compiled to passes the Logic Grid contract. |
| DraftTheorems.CompilesExactly | src/deductra/families/logic_grid/builder.py:924-1059 | The compilation of such a draft succeeds, with a valid specification, if and only if the identifier made of draft and revision number has at most 255 characters, that is, if the revision has at most 220 digits less the length of the draft's key. |
| DraftTheorems.OnlyRevisionCanOverflow | src/deductra/domain/ids.py:7-10 | No other derived identifier of such a draft is ever too long. |
| DraftTheorems.LongRevisionFails | src/deductra/families/logic_grid/builder.py:1010-1025 | There is a draft without messages whose compilation fails. |
| DraftTheorems.CompiledClueMeans | src/deductra/families/logic_grid/builder.py:827-873 | The compiled clue holds of an assignment exactly when the template's meaning holds of the rows it puts the items on. |
| DraftTheorems.SmallDraftIsClean | src/deductra/families/logic_grid/builder.py:401-792 | Such drafts exist, with any positive revision number, so valid specifications do. |
| DraftGenesis.DraftGenesisExists | src/deductra/families/logic_grid/builder.py:1091-1097 | The genesis state of every compiled draft exists; each anchor item starts on its own row, every other item may stand on any row. |
| DraftGenesis.StraightSolves | src/deductra/families/logic_grid/builder.py:924-1059 | If the clues of a draft are true of the placement that puts every item on the row of its number, its puzzle has a solution. |
| DraftLimits.CompiledVariables | src/deductra/families/logic_grid/builder.py:827-873 | The variables of a compiled clue are those of exactly the items its template mentions. |
| DraftLimits.ClueRowsAtGenesis | src/deductra/verification/logic_grid_cpsat.py:175-184 | At genesis the truth table of a clue has (items per category) to the power of (non-anchor items mentioned) combinations. |
| DraftLimits.DraftLimitsAreExact | src/deductra/verification/logic_grid_cpsat.py:184-190 | So a draft is within the table limit at genesis if and only if no clue has more than a million of these. |
| DraftProofs.DraftProofFollowsLimits | src/deductra/families/logic_grid/builder.py:1091-1130 | For a draft with a solution this number decides the attached proof: within the limit every attempt is cross-verified and the result is a unique solution, a stalled run or a reached limit; above it every attempt is rejected and the run stalls. |
| DraftProofs.AnchoredLinkIsRejected | src/deductra/families/logic_grid/builder.py:1114-1130 | Above the limit, even the deduction from a clue that names an item's row outright is attempted and rejected. |
| DraftProofs.WideDraftIsStuck | src/deductra/families/logic_grid/builder.py:1114-1130 | A concrete draft without messages and with a solution to which this happens. |
| DraftProofs.SolversExist | src/deductra/families/logic_grid/builder.py:1098-1104 | There is a solver as these theorems assume it: both backends over decisive solvers, names that tell candidates apart. |
| Builder.Prove | src/deductra/families/logic_grid/builder.py:1099-1170 | Solving, folding the events and checking computes the proof function, errors included. |
| Builder.ProofTable | src/deductra/families/logic_grid/builder.py:1128-1170 | An unfinished run is unproven under its own status; a finished one is unique exactly when the checker accepts what its final state spells out, which is what is listed. |
| Builder.ProofIsRight | src/deductra/families/logic_grid/builder.py:1099-1170 | A finished solve is certified exactly when the puzzle has a solution; the certified listing is then the only one; a failed final check means no step was taken and no solution exists. |
| Play.Board.Apply | src/deductra/families/logic_grid/play.py:415-431 | The in-place update of dictionary and set is the marking function. |
| Play.ActivePath | src/deductra/families/logic_grid/play.py:399-412 | The walk with its `seen` set always ends and returns the path function's result, reversed into root-first order, or its error. |
| Play.ProjectMarks | src/deductra/families/logic_grid/play.py:494-513 | Replaying the path on a board gives the projection function. |
| Play.ProgressConflicts | src/deductra/families/logic_grid/play.py:434-480 | The two loops and the sort compute the conflict function. |
| Play.ReplayStream | src/deductra/families/logic_grid/play.py:983-1012 | The replay loop computes the replay function. |
| PlayTheorems.PathOfNewMove | src/deductra/families/logic_grid/play.py:399-412 | A fresh move's path is its parent's path and the move itself. |
| PlayTheorems.MoveProjects | src/deductra/families/logic_grid/play.py:494-513 | Projecting a move is projecting its parent and applying the move. |
| PlayTheorems.NodesAreProper | src/deductra/families/logic_grid/play.py:415-431 | At every node of the tree the givens are as the puzzle gives them and no cell is both assigned and excluded. |
| PlayTheorems.CompletionMeansAccepted | src/deductra/families/logic_grid/play.py:932-963 | Completion is accepted exactly when the final checker accepts the assignments. |
| PlayTheorems.StepKeepsSane | src/deductra/families/logic_grid/play.py:603-963 | On a sane session every fresh action below the event limit is recorded without error and leaves a sane session: marks equal the cursor's projection, cursor and checkpoints lie in a rooted tree, identifiers are unique, strict histories stay free of conflicts, completed marks are accepted. |
| PlaySteps.CellSteps | src/deductra/families/logic_grid/play.py:776-828 | A mark is accepted in an active session unless item or row is unknown, the cell is given, or a strict session would show a conflict; then the marks change exactly as stated and nothing else but cursor and shown conflicts. |
| PlaySteps.MarkedAlike | src/deductra/families/logic_grid/play.py:415-431 | Stated is: after an assignment the item is on the row and the cell not excluded, after an exclusion the reverse, after clearing neither; other items and cells are untouched, and so is another row of the item; this leaves nothing open. |
| PlaySteps.StatusSteps | src/deductra/families/logic_grid/play.py:631-681 | A completed session refuses everything, a paused one all but resuming and checkpoints; pausing and resuming change the status alone. |
| PlaySteps.CheckpointSteps | src/deductra/families/logic_grid/play.py:682-734 | A checkpoint is made exactly under a new name and remembers cursor, event count and state. |
| PlaySteps.TravelSteps | src/deductra/families/logic_grid/play.py:830-895 | Undo goes from a move to its parent and is refused at the root; redo goes to a move made at the cursor and is refused otherwise; marks and conflicts are those of the new cursor. |
| PlaySteps.RestoreSteps | src/deductra/families/logic_grid/play.py:735-775 | Restoring goes to the move a checkpoint remembers and is refused for an unknown one. |
| PlaySteps.CheckSteps | src/deductra/families/logic_grid/play.py:897-963 | Validation shows the conflicts except in an exam; completion is accepted exactly when the checker accepts, and otherwise shows them except in an exam. |
| PlaySteps.ConflictsExactly | src/deductra/families/logic_grid/play.py:434-480 | Reported are exactly the items without row or candidate and the rows shared inside a category, with category, row and all items there, sorted by kind and references. |
| PlaySteps.StartExactly | src/deductra/families/logic_grid/play.py:327-355 | A session starts active at the root, with exactly the givens marked. |
| PlaySteps.ApplyExactly | src/deductra/families/logic_grid/play.py:966-980 | The verifying entry point accepts exactly fresh actions below the limit on sessions some run leads to. |
| PlayRuns.ReachableIsSane | src/deductra/families/logic_grid/play.py:966-980 | Every session reachable by actions is sane. |
| PlayRuns.ReachableApplies | src/deductra/families/logic_grid/play.py:966-980 | On a reachable session the verifying entry point never refuses a fresh action below the limit, and does what the plain step does. |
| PlayRuns.ReachableMarks | src/deductra/families/logic_grid/play.py:494-513 | The incrementally kept marks equal the projection of the cursor, and every node shows proper marks. |
| PlayRuns.StrictStaysPeaceful | src/deductra/families/logic_grid/play.py:776-828 | A strict session whose givens are free of conflicts has none at any node of its history. |
| PlayRuns.RejectionKeeps | src/deductra/families/logic_grid/play.py:546-600 | A rejected action keeps marks, cursor, checkpoints and status; only displayed conflicts may change. |
| PlayRuns.CompletedAbsorbs | src/deductra/families/logic_grid/play.py:631-644 | No run changes a completed session. |
| PlayRuns.CompletedIsSolution | src/deductra/families/logic_grid/play.py:932-963 | The marks of a completed reachable session are a solution of the puzzle. |
| PlayRuns.UndoThenRedo | src/deductra/families/logic_grid/play.py:830-895 | Undoing a move and redoing it is accepted both times and restores marks and cursor. |
| PlayRuns.RestoreReturns | src/deductra/families/logic_grid/play.py:735-774 | Restoring a checkpoint returns the marks and cursor held when it was made, whatever run lies between. |
| PlayRuns.RunReplays | src/deductra/families/logic_grid/play.py:983-1012 | Replay returns every reachable session unchanged from its own events. |
| PlayRuns.ReplayedIsRun | src/deductra/families/logic_grid/play.py:983-1012 | A stream replay accepts is what running its identifiers and actions produces. |
| PlayRuns.ReplayCheckMeansReachable | src/deductra/families/logic_grid/play.py:617-625 | A session equals its canonical replay exactly when some run reaches it. |
| PlayRuns.InputsDetermineStream | src/deductra/families/logic_grid/play.py:983-1012 | Two accepted streams with the same identifiers and actions are the same stream. |
| PlayRuns.ConflictsMean | src/deductra/families/logic_grid/play.py:434-480 | No conflict is reported exactly when every unassigned item has a row left and no category shows two items in one row. |
| Branches.DeriveState | src/deductra/reasoning/reducer.py:121-161 | The in-place narrowing computes the child state function, errors included. |
| Branches.ReduceProjection | src/deductra/reasoning/branches.py:148-237 | An accepted event yields a projection that passes the projection validator and advances the sequence number. |
| Branches.Replay | src/deductra/reasoning/reducer.py:164-193 | Verifying the chain, finding the genesis event and folding compute the replay function. |
| BranchSteps.MutationExactly | src/deductra/reasoning/branches.py:219-235 | A mutation is accepted exactly on the active branch while it is open, timely, disclosed and reducible; a contradiction marks the branch contradicted, any other mutation leaves it open, and no other branch changes. |
| BranchSteps.ContradictedIsFrozen | src/deductra/reasoning/branches.py:166-223 | On a branch that is not open no mutation and no opening is accepted. |
| BranchSteps.OpeningExactly | src/deductra/reasoning/branches.py:155-189 | A branch is opened exactly under a new name, from the open active branch, by an assumption open in its state; record and state of the child are given field by field. |
| BranchSteps.ClosingExactly | src/deductra/reasoning/branches.py:191-217 | Closed is exactly the active non-root branch in the named state, as contradicted only after a contradiction, as solved only when solved; the record keeps the closure and the parent becomes active. |
| BranchSteps.OtherExactly | src/deductra/reasoning/branches.py:155-237 | Any other timely event on a retained branch only advances the sequence number. |
| BranchSteps.ClosedIsFinal | src/deductra/reasoning/branches.py:148-237 | Over every run, a closed branch keeps its record and its state. |
| BranchSteps.ReplayExactly | src/deductra/reasoning/reducer.py:164-193 | A stream is replayed exactly when its chain is intact, the event at the genesis position records the genesis, and all later events are accepted; nothing before is reduced and everything after is. |
| BranchTheorems.StepKeepsSane | src/deductra/reasoning/branches.py:148-237 | Each accepted event keeps: never-closed branches are the active one and its ancestors, ancestors are open and hold the state their child was opened from, parents are older than children, one root; no branch's origin changes. |
| BranchTheorems.FoldIsSane | src/deductra/reasoning/reducer.py:189-193 | So over every run from a genesis. |
| BranchTheorems.UpdateKeepsChains | src/deductra/reasoning/branches.py:114-134 | Replacing the active branch's record and state disturbs no chain and no waiting ancestor. |
| BranchTheorems.DerivedMeans | src/deductra/reasoning/reducer.py:121-161 | A new branch starts with exactly its parent's solutions that meet the assumption. |
| BranchTheorems.StepKeepsMeaning | src/deductra/reasoning/branches.py:148-237 | An event whose claims the source state entails keeps the meaning of every branch. |
| BranchTheorems.BranchesMeanAssumptions | src/deductra/reasoning/reducer.py:164-193 | Over every run of such events, each branch's solutions are exactly the genesis solutions that meet the assignment and exclusion assumptions on its chain. |
| BranchTheorems.EmptyBranchRefutes | src/deductra/reasoning/branches.py:161-189 | A branch without solutions refutes its assumption in the parent: every solution of the parent meets the opposite. |
| EventStore.Store.Append | src/deductra/memory/sqlite_store.py:88-176 | An accepted append adds exactly one event at its trace's end and nowhere else; a refused one, even after the stream row was inserted, restores both tables, and names the first reason; unreadable or broken streams are refused. |
| EventStore.Store.ReadStream | src/deductra/memory/sqlite_store.py:291-304 | The exact suffix asked for, and on a sound store of exactly the logged stream; damaged or broken streams are refused. |
| EventStore.Store.VerifyStream | src/deductra/memory/sqlite_store.py:311-328 | Damage to the stored form is reported at its sequence number with every later row distrusted; otherwise the chain's own report; a sound store reports nothing. |
| EventStore.Store.Load | src/deductra/memory/sqlite_store.py:213-249 | The row loop and the head comparison compute the load function for any tables. |
| EventStore.LoadedIsLogged | src/deductra/memory/sqlite_store.py:195-289 | When the tables hold a log, loading a trace returns exactly its logged events. |
| EventStore.CollisionMeansKnown | src/deductra/memory/sqlite_store.py:25-53 | For an event that continues its stream, the table constraints reject exactly identifiers already known in some trace. |
| EventStore.AcceptingKeepsSound | src/deductra/memory/sqlite_store.py:179-193 | Accepting an event keeps every stream an intact chain of its trace, with identifiers of its own. |
| EventStore.StreamsOnlyGrow | src/deductra/memory/sqlite_store.py:88-176 | Over any run of offered events, streams only grow at their end and stay sound. |
| EventStore.RepeatIsRefused | src/deductra/memory/sqlite_store.py:101-102 | An accepted event is refused ever after. |
| EventStoreTheorems.AcceptedExactly | src/deductra/memory/sqlite_store.py:88-193 | On a sound log an event is accepted exactly when the log it makes is sound, and a refusal names the first reason that applies. |
| EventStoreTheorems.LoadedExactly | src/deductra/memory/sqlite_store.py:195-289 | Under the uniqueness constraints a trace loads exactly when all its rows are whole and the index names its last event, as those rows in order; otherwise the damage is reported at the first row that is not whole, or where the index disagrees. |
| EventStoreTheorems.DistrustedExactly | src/deductra/memory/sqlite_store.py:311-328 | Distrusted are exactly the positions of the trace's rows from the damage on, in order. |
| Assistance.ReadMarks | src/deductra/families/logic_grid/assistance.py:701-757 | Classifying the marks one by one and narrowing the genesis domains compute the marks' state, errors included. |
| AssistanceTheorems.ClassificationIsSound | src/deductra/families/logic_grid/assistance.py:657-699 | A supported mark is true and a contradicted one false in every solution, of which there is one; no mark is disputed, because both sides cannot be verified. |
| AssistanceTheorems.MarksKeepSolutions | src/deductra/families/logic_grid/assistance.py:701-757 | Reading the marks never fails and never finds an impossible state; the state has exactly the genesis solutions, and the rules' preconditions when there is one. |
| AssistanceTheorems.MarksAreRetained | src/deductra/families/logic_grid/assistance.py:878-886 | Every mark of a sane session that is not a given has a retained accepted event that made it. |
| AssistanceTheorems.CorrectionsAreFound | src/deductra/families/logic_grid/assistance.py:878-886 | So the lookup behind a required correction always succeeds. |
| AssistanceTheorems.HintsAreTrue | src/deductra/families/logic_grid/assistance.py:844-982 | An available hint's conclusion holds in every solution of the puzzle, a required correction names a current mark and its event, and verification is never disputed. |
| AssistanceTheorems.HintsAreAnswered | src/deductra/families/logic_grid/assistance.py:844-982 | On a sane session of a valid puzzle that has a solution every request is answered, in that way. |
| HintDecisions.EvaluationTable | src/deductra/families/logic_grid/assistance.py:657-699 | Supported or contradicted iff exactly one side is cross-verified, disputed iff both are or one is quarantined, else undecided. |
| HintDecisions.HintTable | src/deductra/families/logic_grid/assistance.py:844-982 | Which answer is due: nothing when complete or in an exam; a correction iff a mark that is not a given is contradicted, naming the first such mark and its latest event; no step while one is disputed or undecided; else the next step. |
| HintDecisions.StepTable | src/deductra/families/logic_grid/assistance.py:912-982 | Exhausted iff nothing is discovered; otherwise the selected conclusion is shown iff it is cross-verified, and disputed iff it is quarantined. |
| HintDecisions.MarksStateExactly | src/deductra/families/logic_grid/assistance.py:701-757 | The marks' state has exactly the genesis candidates the supported marks leave open, and asserts them and what they settle. |
| HintDecisions.DecisiveEvaluation | src/deductra/families/logic_grid/assistance.py:657-699 | With decisive backends and clues within the table limit a mark is supported iff true in every solution, contradicted iff false in every one. |
| HintDecisions.DecisiveHints | src/deductra/families/logic_grid/assistance.py:844-982 | Then the puzzle alone decides: a correction iff some mark is false in every solution, no step while one is false in some, and otherwise a true step whenever the rules find one. |
| Projections.ChainFailures | src/deductra/memory/projections/events.py:220-240 | The diagnostics loop reports nothing exactly when every event is new, numbered by position, of the first event's stream and kind, linked to its predecessor and correctly hashed. |
| Projections.GroupEvents | src/deductra/memory/projections/rebuild.py:65-71 | Grouping refuses exactly repeated identifiers, lists streams by first event, and keeps each stream's events in input order. |
| Projections.RebuildAttempt | src/deductra/memory/projections/rebuild.py:91-176 | Counting event by event computes the attempt function, for chains only. |
| Projections.Lessons | src/deductra/memory/projections/rebuild.py:189-202 | The rule dictionary ends up with one entry for each rule seen, holding the tallies of all attempts. |
| Projections.RebuildNovelty | src/deductra/memory/projections/rebuild.py:238-263 | Recording and removing entries in place computes the index function. |
| Projections.RebuildArtifacts | src/deductra/memory/projections/rebuild.py:266-302 | Recording, superseding and removing entries in place computes the index function. |
| ProjectionTheorems.RebuildMemory | src/deductra/memory/projections/rebuild.py:305-334 | The whole command computes the rebuild function, refusals included. |
| ProjectionTheorems.StreamForgetsOrder | src/deductra/memory/projections/rebuild.py:73-82 | A stream that sorts into a chain sorts into the same chain from every enumeration. |
| ProjectionTheorems.RebuildSucceedsInAnyOrder | src/deductra/memory/projections/rebuild.py:305-334 | Every enumeration of the same events succeeds or fails together. |
| ProjectionTheorems.OrderIndependence | src/deductra/memory/projections/rebuild.py:313-322 | All enumerations give the same bundle if and only if no two streams start the same attempt. |
| ProjectionTheorems.SharedAttemptIsAccepted | src/deductra/memory/projections/rebuild.py:313-322 | Two streams that start one attempt are rebuilt all the same, so the condition can fail. |
| LearningTheorems.AttemptTallies | src/deductra/memory/projections/rebuild.py:107-158 | An attempt's tallies about a rule are the numbers of its events showing each kind of evidence, its evidence the identifiers of exactly those events. |
| LearningTheorems.LearnersStartedAttempts | src/deductra/memory/projections/rebuild.py:182-187 | There is one learning view for each user who started an attempt, in ascending order. |
| LearningTheorems.LearningCountsEvents | src/deductra/memory/projections/rebuild.py:186-225 | A user's totals about a rule are the numbers of source events showing each kind of evidence in the streams of that user's attempts; statuses add up. |
| ProjectionContents.AttemptExactly | src/deductra/memory/projections/rebuild.py:91-176 | An attempt is rebuilt exactly from a stream that starts it, stays with it and ends at its terminal event; all its counts, status, last self-assessment, sources and head are read off the events. |
| ProjectionContents.NoveltyExactly | src/deductra/memory/projections/rebuild.py:238-263 | The index is built exactly when no present revision is recorded and no absent one removed, and holds the revisions recorded and not removed since, each with its own record. |
| ProjectionContents.ArtifactsExactly | src/deductra/memory/projections/rebuild.py:266-302 | The same for artifacts, superseded only by another present one, each with its last replacement. |
| ProjectionContents.RebuildExactly | src/deductra/memory/projections/rebuild.py:305-334 | A memory is rebuilt exactly from valid streams, well-formed attempts and at most one admitted stream for each index; the bundle shows exactly these. |
| ProjectionContents.LearningStatuses | src/deductra/memory/projections/rebuild.py:186-225 | Completed, abandoned and active attempts of a user are counted by how their streams end; the view names exactly those streams and their heads. |
| Normalization.BuildAttemptEvents | src/deductra/families/logic_grid/attempts.py:493-600 | The loop with its two sets of seen digests seals one fact for each distinct content, in order of time and digest, between the start and the completion. |
| NormalizationTheorems.NormalizedIsChained | src/deductra/families/logic_grid/attempts.py:493-600 | The stream has no gaps, a correct hash chain and no repeated identifier, and is all about the one attempt. |
| NormalizationTheorems.NormalizedIsRebuilt | src/deductra/families/logic_grid/attempts.py:634-634 | Every normalized stream is rebuilt into an attempt projection, completed exactly when a completion was observed and never abandoned. |
| NormalizationTheorems.NormalizedTotals | src/deductra/families/logic_grid/attempts.py:530-564 | Its totals are the numbers of distinct decided evaluations and available hints seen strictly before completion. |
| NormalizationTheorems.ProjectionCompletesWithSession | src/deductra/families/logic_grid/attempts.py:520-528 | For the record of a reachable session, the projection is completed exactly when the session is. |
| NormalizationTheorems.MemoryOfAttempts | src/deductra/memory/projections/rebuild.py:305-334 | Normalized attempts with different identifiers always make up a memory, the same in every enumeration, that holds each of them. |
| NormalizationContents.NormalizedExactly | src/deductra/families/logic_grid/attempts.py:450-600 | The stream is the start, one fact for each counting evaluation or hint, at the first time it was observed and ordered by time and digest, with its payload given, and the first completion. |
| AttemptDatabase.Database.Create | src/deductra/families/logic_grid/sqlite_attempt_store.py:128-170 | On any tables the call commits exactly what its function of the tables says or changes no table; on a sound store the answer and the new archive are the archive function's. |
| AttemptDatabase.Database.Append | src/deductra/families/logic_grid/sqlite_attempt_store.py:172-222 | The same for an append; a refused call, even after the event row was inserted, changes no table. |
| AttemptDatabase.Database.RecordEvaluation | src/deductra/families/logic_grid/sqlite_attempt_store.py:224-288 | The same for an evaluation. |
| AttemptDatabase.Database.RecordHint | src/deductra/families/logic_grid/sqlite_attempt_store.py:290-348 | The same for a hint result, also when only the missing last event stops it. |
| AttemptCalls.CreateRefines | src/deductra/families/logic_grid/sqlite_attempt_store.py:128-170 | On tables that hold a sound archive the function of the tables and the archive's agree: same record or same refusal, and the written tables hold the new archive. |
| AttemptCalls.AppendRefines | src/deductra/families/logic_grid/sqlite_attempt_store.py:172-222 | The same for an append. |
| AttemptCalls.EvaluationRefines | src/deductra/families/logic_grid/sqlite_attempt_store.py:224-288 | The same for an evaluation. |
| AttemptCalls.HintRefines | src/deductra/families/logic_grid/sqlite_attempt_store.py:290-348 | The same for a hint result. |
| AttemptDatabase.Database.ReadVerified | src/deductra/families/logic_grid/sqlite_attempt_store.py:618-689 | Loading, replaying and rebuilding compute the read function for any tables, and on a sound store the archive's reading. |
| AttemptDatabase.Database.UpdateStream | src/deductra/families/logic_grid/sqlite_attempt_store.py:416-444 | An update rewrites the derived columns and keeps owner, revision, mode and start; without events it fails. |
| AttemptStore.ReadIsReadBack | src/deductra/families/logic_grid/sqlite_attempt_store.py:618-689 | Where the rows of an attempt are those of its archived record, whatever the rows of other attempts hold, it is read as that record, refused exactly when replay in the stored mode does not give the stored session. |
| AttemptEvidence.CollectEvidence | src/deductra/families/logic_grid/attempts.py:409-443 | The grouping dictionary ends up with the evidence of each kind of action, and the result is refused exactly when its validators refuse it. |
| AttemptEvidence.EvidenceExactly | src/deductra/families/logic_grid/attempts.py:409-443 | The evidence lists all events in order, counts the accepted and the rejected places, and has exactly one entry for each kind of action that occurs, in order, with the counts and identifiers of that kind. |
| AttemptEvidence.EvidenceStands | src/deductra/families/logic_grid/attempts.py:125-181 | The validators refuse the evidence of a session exactly when two events of one kind share an identifier. |
| AttemptEvidence.DistinctEventsStand | src/deductra/families/logic_grid/attempts.py:125-181 | So they never refuse a replayed session. |
| AttemptTables.PlayCollisionMeansKnown | src/deductra/families/logic_grid/sqlite_attempt_store.py:55-65 | For an event that continues its attempt, the table constraints reject exactly event identifiers already stored. |
| AttemptTables.EvaluationIsNew | src/deductra/families/logic_grid/sqlite_attempt_store.py:70-80 | A chained evaluation of its own attempt never violates them. |
| AttemptTables.HintIsNew | src/deductra/families/logic_grid/sqlite_attempt_store.py:85-94 | Nor does a chained hint result. |
| AttemptRuns.AppendAcceptedExactly | src/deductra/families/logic_grid/sqlite_attempt_store.py:172-222 | Appended are exactly the canonical one-event continuations of a readable attempt with a new identifier and no step back in time; the record validator never refuses one. |
| AttemptRuns.EvaluationAcceptedExactly | src/deductra/families/logic_grid/sqlite_attempt_store.py:224-288 | Recorded are exactly the evaluations of the current session about one of its events, not back in time. |
| AttemptRuns.HintAcceptedExactly | src/deductra/families/logic_grid/sqlite_attempt_store.py:290-348 | Recorded are exactly the hint results for the current session of an attempt that has an event, not back in time. |
| AttemptContents.CreatedExactly | src/deductra/families/logic_grid/sqlite_attempt_store.py:128-170 | Created is exactly a session at its start under a new identifier, in its own mode, without observations. |
| AttemptContents.AppendedHolds | src/deductra/families/logic_grid/sqlite_attempt_store.py:172-222 | An accepted append replaces the session, observes its last event at the time of the call, and changes nothing else. |
| AttemptContents.EvaluatedHolds | src/deductra/families/logic_grid/sqlite_attempt_store.py:224-288 | An accepted evaluation is chained to the last one at the time of the call, and changes nothing else. |
| AttemptContents.HintedHolds | src/deductra/families/logic_grid/sqlite_attempt_store.py:290-348 | The same for a hint result. |
| AttemptContents.CreationRefused | src/deductra/families/logic_grid/sqlite_attempt_store.py:128-170 | A creation is refused for events first, then for a session that is not its canonical start, then for a taken identifier. |
| AttemptContents.AppendRefused | src/deductra/families/logic_grid/sqlite_attempt_store.py:172-222 | An append of a session that replays is refused as a breach of integrity exactly when the replay differs or the attempt cannot be read, otherwise as a conflict. |
| AttemptContents.EvaluationRefused | src/deductra/families/logic_grid/sqlite_attempt_store.py:224-288 | An evaluation is refused as a breach of integrity exactly for an unreadable attempt, another revision or an unknown event, otherwise as a conflict. |
| AttemptContents.HintRefused | src/deductra/families/logic_grid/sqlite_attempt_store.py:290-348 | A hint result is refused likewise, and for a session without events only when nothing else is wrong. |
| AttemptContents.RowsExactly | src/deductra/families/logic_grid/sqlite_attempt_store.py:350-592 | The index row names the last event and its digest, event rows stand at their positions, and each evaluation and hint row carries the digest of the row before. |
| AttemptContents.RecordExactly | src/deductra/families/logic_grid/attempts.py:607-660 | A record keeps what it is built from, was last changed at the latest of its times, and derives the rest from that. |
| AttemptContents.ReadExactly | src/deductra/families/logic_grid/sqlite_attempt_store.py:618-689 | Any tables are read as a record exactly when their rows are that record's, it is what its observations are built into, and replay in the stored mode gives its session. |
| AttemptRuns.AppendStaysReadable | src/deductra/families/logic_grid/sqlite_attempt_store.py:172-222 | After an accepted append the attempt can be read if and only if the session has the stored mode; only a first append can have another. |
| AttemptRuns.ModeCanBeLost | src/deductra/families/logic_grid/sqlite_attempt_store.py:172-222 | For every attempt without events and every other mode there is an accepted append that leaves the attempt unreadable. |
| AttemptRuns.ReadableThroughout | src/deductra/families/logic_grid/sqlite_attempt_store.py:618-689 | Over every run whose sessions keep their mode, an attempt is readable, whatever happens to others. |
| AttemptRuns.AfterIsSound | src/deductra/families/logic_grid/sqlite_attempt_store.py:128-348 | Over every run of accepted and refused calls, each record is what its observations are built into, and no event is stored twice. |
| AttemptRuns.RecordsFollowCalls | src/deductra/families/logic_grid/sqlite_attempt_store.py:128-348 | A record holds exactly the accepted observations about its attempt, in call order. |

## Left out

- EventStore.Store.ReadStream: the damaged case only says that the read is refused, not with which message.
- Branches.Replay: all failures before the fold are one error value, as in the code; messages are left out.
- Assistance.RequestHint: the evaluation and technique evidence attached to a required correction are left out; the correction names the mark and its event.
- The Z3 and OR-Tools solvers, unsat cores, time limits, durations and artifact hashes: foreign libraries; the order of the two checks and the meaning of the answers are kept.
- CP-SAT's MODEL_INVALID status: a truthful solver does not give it on a well-formed model, and the backend rejects it.
- SHA-256, JSON rendering, Unicode normalisation, timestamps, producers and correlation: one opaque field of an event stands for them.
- SQL text, journal modes, connections and schema migrations; columns that no query reads.
- LearningTheorems.LearningCountsEvents: evidence identifiers are a set, where the code lists the same set in order.
- Novelty and artifact entries copy their payload's remaining fields; one opaque field stands for them.
- Logic Equations human rules and the pass structure of its final checker: its evaluators are modelled, its rules follow the Logic Grid ones with other clue kinds.
- Constraint kinds beyond domain, all-different and arithmetic: preparation refuses them, and so does the model.
- Labels, titles, clue texts, clue provenance, accessibility data, hint wording, disclosure levels and previews: presentation.
- Draft limits on text and on numeric values that no clue uses: the compilation theorem does not need them.
- The order of retained branch records and states in their tuples: it is creation order and nothing reads it.
- Relation, aggregate and truth atoms share one opaque constructor: the modelled code refuses or ignores them.
- Generation, graph, agents, reports, command line and schema export: one-pass checks or input and output.

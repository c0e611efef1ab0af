/** What a puzzle means: the complete assignments that satisfy a state's candidates and constraints. */
module Solutions {
  import opened Prelude
  import opened Domain
  import opened State
  import Equations
  import Grid

  /** The position of a value in its domain, which is its backend code. */
  function IndexOf(ids: seq<ValueId>, x: ValueId): (i: nat)
    requires x in ids
    ensures i < |ids| && ids[i] == x
  {
    if ids[0] == x then 0 else 1 + IndexOf(ids[1..], x)
  }

  lemma {:induction false} IndexIsUnique(ids: seq<ValueId>, i: nat)
    requires NoDuplicates(ids) && i < |ids|
    ensures ids[i] in ids && IndexOf(ids, ids[i]) == i
  {
  }

  function Ids(puzzle: Puzzle, v: VariableId): (ids: seq<ValueId>)
    requires puzzle.WellFormed() && v in puzzle.variables
    ensures NoDuplicates(ids)
  {
    var d := puzzle.variables[v];
    assert d in puzzle.domains;
    ValueIds(puzzle.ValuesOf(v))
  }

  function Table(puzzle: Puzzle): NumberTable
    requires puzzle.WellFormed()
  {
    map v | v in puzzle.variables :: NumericOf(puzzle.ValuesOf(v))
  }

  /** One declared value for every variable. */
  ghost predicate Complete(puzzle: Puzzle, a: Assignment)
    requires puzzle.WellFormed()
  {
    a.Keys == puzzle.variables.Keys && forall v :: v in a ==> a[v] in Ids(puzzle, v)
  }

  /** The value codes of a complete assignment. */
  function CodesOf(puzzle: Puzzle, a: Assignment): map<VariableId, int>
    requires puzzle.WellFormed() && Complete(puzzle, a)
  {
    map v | v in puzzle.variables :: IndexOf(Ids(puzzle, v), a[v])
  }

  /** The codes of `vs` are in range for `table`. */
  ghost predicate CodesFit(vs: set<VariableId>, codes: map<VariableId, int>, table: NumberTable) {
    forall v :: v in vs ==> v in codes && v in table && 0 <= codes[v] < |table[v]|
  }

  /** The integers that codes stand for. */
  function IntegersAt(vs: set<VariableId>, codes: map<VariableId, int>, table: NumberTable)
    : Equations.IntegerEnvironment
    requires CodesFit(vs, codes, table)
    requires forall v :: v in vs ==> AllIntegers(table[v])
  {
    map v | v in vs :: IntegerAt(table[v], codes[v])
  }

  function Restrict(codes: map<VariableId, int>, vs: set<VariableId>): map<VariableId, int> {
    map v | v in vs && v in codes :: codes[v]
  }

  /** A clue as both truth-table encoders read it. */
  ghost predicate ClueHolds(family: Identifier, e: BooleanExpression, codes: map<VariableId, int>,
                            table: NumberTable)
  {
    var vs := BooleanVariables(e);
    if family == LOGIC_GRID_FAMILY then
      Grid.Judge(e, Grid.Codes(Restrict(codes, vs), table)) == Some(true)
    else
      && Equations.Supported(e)
      && CodesFit(vs, codes, table)
      && (forall v :: v in vs ==> AllIntegers(table[v]))
      && Equations.Holds(Equations.TableDialect, e, IntegersAt(vs, codes, table))
  }

  predicate CodesDiffer(vs: seq<VariableId>, codes: map<VariableId, int>) {
    && (forall i :: 0 <= i < |vs| ==> vs[i] in codes)
    && forall i, j :: 0 <= i < j < |vs| ==> codes[vs[i]] != codes[vs[j]]
  }

  ghost predicate ConstraintHolds(puzzle: Puzzle, c: Constraint, a: Assignment)
    requires puzzle.WellFormed() && Complete(puzzle, a)
  {
    match c
    case DomainConstraint(_, v, allowed) => v in a && a[v] in allowed
    case AllDifferentConstraint(_, vs) => CodesDiffer(vs, CodesOf(puzzle, a))
    case ArithmeticConstraint(_, e) => ClueHolds(puzzle.family, e, CodesOf(puzzle, a), Table(puzzle))
    case OtherConstraint(_) => false
  }

  /** `a` draws every value from the state's candidates and satisfies its active constraints. */
  ghost predicate Solution(puzzle: Puzzle, state: PuzzleState, a: Assignment)
    requires puzzle.WellFormed()
  {
    && Complete(puzzle, a)
    && (forall v :: v in a ==> v in state.candidates && a[v] in state.candidates[v])
    && (forall c :: c in puzzle.constraints && c.id in state.active ==> ConstraintHolds(puzzle, c, a))
  }

  ghost predicate HasSolution(puzzle: Puzzle, state: PuzzleState)
    requires puzzle.WellFormed()
  {
    exists a :: Solution(puzzle, state, a)
  }

  /** Every solution of the state makes the atom true. */
  ghost predicate Entails(puzzle: Puzzle, state: PuzzleState, atom: Atom)
    requires puzzle.WellFormed()
  {
    forall a :: Solution(puzzle, state, a) ==> AtomHolds(atom, a)
  }

  ghost predicate SameSolutions(puzzle: Puzzle, s: PuzzleState, t: PuzzleState)
    requires puzzle.WellFormed()
  {
    forall a :: Solution(puzzle, s, a) <==> Solution(puzzle, t, a)
  }

  /** The listed variables take pairwise different values. */
  ghost predicate ValuesDiffer(vs: seq<VariableId>, a: Assignment) {
    && (forall i :: 0 <= i < |vs| ==> vs[i] in a)
    && forall i, j :: 0 <= i < j < |vs| ==> a[vs[i]] != a[vs[j]]
  }

  /** On a shared domain, different codes are different values. */
  lemma {:induction false} CodesDifferMeansValuesDiffer(puzzle: Puzzle, vs: seq<VariableId>, a: Assignment, d: DomainId)
    requires puzzle.WellFormed() && Complete(puzzle, a)
    requires forall i :: 0 <= i < |vs| ==> vs[i] in puzzle.variables && puzzle.variables[vs[i]] == d
    ensures CodesDiffer(vs, CodesOf(puzzle, a)) <==> ValuesDiffer(vs, a)
  {
    var codes := CodesOf(puzzle, a);
    forall i | 0 <= i < |vs| ensures vs[i] in codes && vs[i] in a {
      assert vs[i] in puzzle.variables;
    }
    forall i, j | 0 <= i < j < |vs| ensures codes[vs[i]] != codes[vs[j]] <==> a[vs[i]] != a[vs[j]] {
      assert Ids(puzzle, vs[i]) == Ids(puzzle, vs[j]);
    }
  }

  // ----- what the genesis state means -----

  ghost predicate Drawn(candidates: CandidateDomains, a: Assignment) {
    forall v :: v in a ==> v in candidates && a[v] in candidates[v]
  }

  /** The restriction a given places on assignments; opaque atoms place none. */
  ghost predicate GivenHolds(given: Atom, a: Assignment) {
    given.OtherAtom? || AtomHolds(given, a)
  }

  ghost predicate DomainHolds(c: Constraint, a: Assignment) {
    c.DomainConstraint? ==> c.variable in a && a[c.variable] in c.allowed
  }

  lemma {:induction false} NarrowMeans(candidates: CandidateDomains, c: Constraint, a: Assignment)
    requires Narrow(candidates, c).Ok? && a.Keys == candidates.Keys
    ensures Narrow(candidates, c).value.Keys == candidates.Keys
    ensures Drawn(Narrow(candidates, c).value, a) <==> Drawn(candidates, a) && DomainHolds(c, a)
  {
    var next := Narrow(candidates, c).value;
    if c.DomainConstraint? {
      assert c.variable in a;
      if Drawn(next, a) {
        assert a[c.variable] in next[c.variable];
        forall w | w in a ensures w in candidates && a[w] in candidates[w] {
          assert a[w] in next[w];
        }
      }
    }
  }

  lemma {:induction false} NarrowingMeans(candidates: CandidateDomains, cs: seq<Constraint>, a: Assignment)
    requires NarrowAll(candidates, cs).Ok? && a.Keys == candidates.Keys
    ensures NarrowAll(candidates, cs).value.Keys == candidates.Keys
    ensures Drawn(NarrowAll(candidates, cs).value, a)
      <==> Drawn(candidates, a) && forall c :: c in cs ==> DomainHolds(c, a)
    decreases |cs|
  {
    if cs != [] {
      NarrowMeans(candidates, cs[0], a);
      NarrowingMeans(Narrow(candidates, cs[0]).value, cs[1..], a);
      assert cs == [cs[0]] + cs[1..];
    }
  }

  lemma {:induction false} GivenMeans(candidates: CandidateDomains, given: Atom, a: Assignment)
    requires ApplyGiven(candidates, given).Ok? && a.Keys == candidates.Keys
    ensures ApplyGiven(candidates, given).value.Keys == candidates.Keys
    ensures Drawn(ApplyGiven(candidates, given).value, a) <==> Drawn(candidates, a) && GivenHolds(given, a)
  {
    var next := ApplyGiven(candidates, given).value;
    if !given.OtherAtom? {
      assert given.variable in a;
      if Drawn(next, a) {
        assert a[given.variable] in next[given.variable];
        forall w | w in a ensures w in candidates && a[w] in candidates[w] {
          assert a[w] in next[w];
        }
      }
    }
  }

  lemma {:induction false} GivensMean(candidates: CandidateDomains, givens: seq<Atom>, a: Assignment)
    requires ApplyGivens(candidates, givens).Ok? && a.Keys == candidates.Keys
    ensures ApplyGivens(candidates, givens).value.Keys == candidates.Keys
    ensures Drawn(ApplyGivens(candidates, givens).value, a)
      <==> Drawn(candidates, a) && forall g :: g in givens ==> GivenHolds(g, a)
    decreases |givens|
  {
    if givens != [] {
      GivenMeans(candidates, givens[0], a);
      GivensMean(ApplyGiven(candidates, givens[0]).value, givens[1..], a);
      assert givens == [givens[0]] + givens[1..];
    }
  }

  /** The genesis state loses nothing and adds nothing: its solutions are the complete assignments
      that satisfy every constraint and every given. */
  lemma {:induction false} InitialSolutions(puzzle: Puzzle, stateId: Identifier, branch: Identifier, sequenceNo: nat,
      a: Assignment)
    requires puzzle.WellFormed() && InitialState(puzzle, stateId, branch, sequenceNo).Ok?
    ensures Solution(puzzle, InitialState(puzzle, stateId, branch, sequenceNo).value, a) <==>
      && Complete(puzzle, a)
      && (forall c :: c in puzzle.constraints ==> ConstraintHolds(puzzle, c, a))
      && (forall g :: g in puzzle.givens ==> GivenHolds(g, a))
  {
    var state := InitialState(puzzle, stateId, branch, sequenceNo).value;
    assert forall c :: c in puzzle.constraints ==> c.id in state.active;
    if Complete(puzzle, a) {
      InitialCandidates(puzzle, a);
    }
  }

  lemma {:induction false} InitialCandidates(puzzle: Puzzle, a: Assignment)
    requires puzzle.WellFormed() && Complete(puzzle, a)
    requires NarrowAll(DeclaredDomains(puzzle), puzzle.constraints).Ok?
    requires ApplyGivens(NarrowAll(DeclaredDomains(puzzle), puzzle.constraints).value, puzzle.givens).Ok?
    ensures
      var narrowed := NarrowAll(DeclaredDomains(puzzle), puzzle.constraints).value;
      Drawn(ApplyGivens(narrowed, puzzle.givens).value, a) <==>
        && (forall c :: c in puzzle.constraints ==> DomainHolds(c, a))
        && (forall g :: g in puzzle.givens ==> GivenHolds(g, a))
  {
    var declared := DeclaredDomains(puzzle);
    NarrowingMeans(declared, puzzle.constraints, a);
    GivensMean(NarrowAll(declared, puzzle.constraints).value, puzzle.givens, a);
    assert Drawn(declared, a);
  }

  // ----- exactly which puzzles have a genesis state, and which one -----

  /** Two givens about one variable that do not exclude each other. */
  predicate Compatible(earlier: Atom, later: Atom) {
    match (earlier, later)
    case (AssignmentAtom(v, x), AssignmentAtom(w, y)) => v == w ==> x == y
    case (AssignmentAtom(v, x), ExclusionAtom(w, y)) => v == w ==> x == y
    case (ExclusionAtom(v, x), AssignmentAtom(w, y)) => v == w ==> x != y
    case (ExclusionAtom(v, x), ExclusionAtom(w, y)) => v == w ==> x != y
    case _ => true
  }

  /** Every given names a candidate that is still possible when it is reached. */
  predicate Taken(candidates: CandidateDomains, givens: seq<Atom>) {
    && (forall i :: 0 <= i < |givens| && !givens[i].OtherAtom? ==>
          givens[i].variable in candidates && givens[i].value in candidates[givens[i].variable])
    && forall i, j :: 0 <= i < j < |givens| ==> Compatible(givens[i], givens[j])
  }

  /** The givens leave the value open. */
  ghost predicate Agrees(givens: seq<Atom>, v: VariableId, x: ValueId) {
    ExclusionAtom(v, x) !in givens && forall y :: AssignmentAtom(v, y) in givens ==> y == x
  }

  lemma {:induction false} TakenSteps(candidates: CandidateDomains, givens: seq<Atom>)
    requires givens != []
    ensures Taken(candidates, givens) <==>
      ApplyGiven(candidates, givens[0]).Ok? && Taken(ApplyGiven(candidates, givens[0]).value, givens[1..])
  {
    var g, rest := givens[0], givens[1..];
    assert forall i :: 0 <= i < |rest| ==> rest[i] == givens[i + 1];
    if ApplyGiven(candidates, g).Ok? {
      var next := ApplyGiven(candidates, g).value;
      forall i | 0 <= i < |rest| && !rest[i].OtherAtom?
        ensures (rest[i].variable in next && rest[i].value in next[rest[i].variable]) <==>
          (rest[i].variable in candidates && rest[i].value in candidates[rest[i].variable] && Compatible(g, rest[i]))
      {
      }
      if Taken(candidates, givens) {
        forall i, j | 0 <= i < j < |rest| ensures Compatible(rest[i], rest[j]) {
          assert Compatible(givens[i + 1], givens[j + 1]);
        }
        forall i | 0 <= i < |rest| && !rest[i].OtherAtom? ensures rest[i].variable in next && rest[i].value in next[rest[i].variable] {
          assert Compatible(givens[0], givens[i + 1]);
        }
      }
      if Taken(next, rest) {
        forall i, j | 0 <= i < j < |givens| ensures Compatible(givens[i], givens[j]) {
          if i > 0 {
            assert Compatible(rest[i - 1], rest[j - 1]);
          } else if !rest[j - 1].OtherAtom? {
            assert Compatible(g, rest[j - 1]);
          }
        }
        forall i | 0 <= i < |givens| && !givens[i].OtherAtom?
          ensures givens[i].variable in candidates && givens[i].value in candidates[givens[i].variable]
        {
          if i > 0 {
            assert rest[i - 1] == givens[i];
          }
        }
      }
    }
  }

  lemma {:induction false} GivensExactly(candidates: CandidateDomains, givens: seq<Atom>)
    ensures ApplyGivens(candidates, givens).Ok? <==> Taken(candidates, givens)
    ensures ApplyGivens(candidates, givens).Ok? ==>
      var next := ApplyGivens(candidates, givens).value;
      && next.Keys == candidates.Keys
      && forall v, x :: v in candidates ==> (x in next[v] <==> x in candidates[v] && Agrees(givens, v, x))
    decreases |givens|
  {
    hide Taken;
    if givens != [] {
      TakenSteps(candidates, givens);
      var first := ApplyGiven(candidates, givens[0]);
      if first.Ok? {
        GivensExactly(first.value, givens[1..]);
        assert givens == [givens[0]] + givens[1..];
        forall v, x ensures Agrees(givens, v, x) <==>
          && Agrees(givens[1..], v, x) && givens[0] != ExclusionAtom(v, x)
          && (givens[0].AssignmentAtom? && givens[0].variable == v ==> givens[0].value == x)
        {
        }
      }
    } else {
      NoGivens(candidates);
    }
  }

  lemma {:induction false} NoGivens(candidates: CandidateDomains)
    ensures Taken(candidates, []) && forall v, x :: Agrees([], v, x)
  {
  }

  lemma {:induction false} NarrowedExactly(candidates: CandidateDomains, cs: seq<Constraint>)
    ensures NarrowAll(candidates, cs).Ok? <==> forall c :: c in cs && c.DomainConstraint? ==> c.variable in candidates
    ensures NarrowAll(candidates, cs).Ok? ==>
      var next := NarrowAll(candidates, cs).value;
      && next.Keys == candidates.Keys
      && forall v, x :: v in candidates ==>
           (x in next[v] <==> x in candidates[v] && forall c :: c in cs && c.DomainConstraint? && c.variable == v ==> x in c.allowed)
    decreases |cs|
  {
    if cs != [] {
      assert cs == [cs[0]] + cs[1..];
      if Narrow(candidates, cs[0]).Ok? {
        NarrowedExactly(Narrow(candidates, cs[0]).value, cs[1..]);
      }
    }
  }

  /** The candidates a puzzle states for a variable: declared, allowed by its domain constraints, open to its givens. */
  ghost predicate Starts(puzzle: Puzzle, v: VariableId, x: ValueId)
    requires puzzle.WellFormed() && v in puzzle.variables
  {
    && x in Ids(puzzle, v) && Agrees(puzzle.givens, v, x)
    && forall c :: c in puzzle.constraints && c.DomainConstraint? && c.variable == v ==> x in c.allowed
  }

  /** The genesis state, field by field. */
  ghost predicate IsGenesis(puzzle: Puzzle, state: PuzzleState, stateId: Identifier, branch: Identifier, n: nat)
    requires puzzle.WellFormed()
  {
    && state.stateId == stateId && state.branch == branch && state.sequenceNo == n && state.revision == puzzle.revision
    && state.candidates.Keys == puzzle.variables.Keys
    && (forall v, x :: v in puzzle.variables ==> (x in state.candidates[v] <==> Starts(puzzle, v, x)))
    && state.asserted == Elements(puzzle.givens) + SingletonAtoms(state.candidates)
    && state.rejected == {} && state.contradictions == []
    && state.active == (set c | c in puzzle.constraints :: c.id)
  }

  /** The values the domain constraints leave, before any given. */
  ghost predicate GivensStand(puzzle: Puzzle)
    requires puzzle.WellFormed()
  {
    && (forall i :: 0 <= i < |puzzle.givens| && !puzzle.givens[i].OtherAtom? ==>
          && puzzle.givens[i].variable in puzzle.variables
          && puzzle.givens[i].value in Ids(puzzle, puzzle.givens[i].variable)
          && forall c :: c in puzzle.constraints && c.DomainConstraint? && c.variable == puzzle.givens[i].variable ==>
               puzzle.givens[i].value in c.allowed)
    && forall i, j :: 0 <= i < j < |puzzle.givens| ==> Compatible(puzzle.givens[i], puzzle.givens[j])
  }

  /** A puzzle has a genesis state exactly when its domain constraints and givens name known variables, every given is
      possible when it is reached, and the state so described is structurally sound and valid; it is that state. */
  lemma {:induction false} GenesisExactly(puzzle: Puzzle, stateId: Identifier, branch: Identifier, n: nat)
    requires puzzle.WellFormed()
    ensures InitialState(puzzle, stateId, branch, n).Ok? <==>
      && (forall c :: c in puzzle.constraints && c.DomainConstraint? ==> c.variable in puzzle.variables)
      && GivensStand(puzzle)
      && exists state :: IsGenesis(puzzle, state, stateId, branch, n) && state.Structural() && ValidState(state, puzzle)
    ensures InitialState(puzzle, stateId, branch, n).Ok? ==>
      IsGenesis(puzzle, InitialState(puzzle, stateId, branch, n).value, stateId, branch, n)
  {
    hide NarrowAll, ApplyGivens, PuzzleState.Structural, ValidState, SingletonAtoms, Agrees, Taken;
    var declared := DeclaredDomains(puzzle);
    NarrowedExactly(declared, puzzle.constraints);
    if NarrowAll(declared, puzzle.constraints).Ok? {
      var narrowed := NarrowAll(declared, puzzle.constraints).value;
      GivensExactly(narrowed, puzzle.givens);
      TakenMeans(puzzle, narrowed);
      if ApplyGivens(narrowed, puzzle.givens).Ok? {
        var candidates := ApplyGivens(narrowed, puzzle.givens).value;
        var made := PuzzleState(
          stateId, puzzle.revision, n, branch, candidates, Elements(puzzle.givens) + SingletonAtoms(candidates), {},
          set c | c in puzzle.constraints :: c.id, []);
        assert IsGenesis(puzzle, made, stateId, branch, n);
        if state :| IsGenesis(puzzle, state, stateId, branch, n) && state.Structural() && ValidState(state, puzzle) {
          GenesisAlone(puzzle, state, made, stateId, branch, n);
        }
      }
    }
  }

  lemma {:induction false} TakenMeans(puzzle: Puzzle, narrowed: CandidateDomains)
    requires puzzle.WellFormed() && narrowed.Keys == puzzle.variables.Keys
    requires forall v, x :: v in narrowed ==> (x in narrowed[v] <==>
      && x in Ids(puzzle, v)
      && forall c :: c in puzzle.constraints && c.DomainConstraint? && c.variable == v ==> x in c.allowed)
    ensures Taken(narrowed, puzzle.givens) <==> GivensStand(puzzle)
  {
  }

  /** The description leaves nothing open. */
  lemma {:induction false} GenesisAlone(puzzle: Puzzle, s: PuzzleState, t: PuzzleState, stateId: Identifier,
      branch: Identifier, n: nat)
    requires puzzle.WellFormed() && IsGenesis(puzzle, s, stateId, branch, n) && IsGenesis(puzzle, t, stateId, branch, n)
    ensures s == t
  {
    hide Starts;
    forall v | v in puzzle.variables ensures s.candidates[v] == t.candidates[v] {
      forall x ensures x in s.candidates[v] <==> x in t.candidates[v] {
      }
    }
    assert s.candidates == t.candidates;
  }
}

/** Which Logic Grid states the truth-table backend can tabulate, and what the two shipped backends decide together. */
module LogicGridTables {
  import opened Prelude
  import opened Domain
  import opened State
  import opened Solutions
  import opened Encoding
  import opened Coordinator
  import opened LogicGrid
  import Grid
  import T = CpSat

  /** How many rows the table of a clue has to consider: the product of its variables' candidate counts. */
  function Rows(candidates: CandidateDomains, vs: seq<VariableId>): nat {
    if vs == [] then 1
    else (if vs[0] in candidates then |candidates[vs[0]]| else 0) * Rows(candidates, vs[1..])
  }

  function ClueRows(candidates: CandidateDomains, e: BooleanExpression): nat {
    Rows(candidates, Ascending(BooleanVariables(e)))
  }

  predicate Tabulable(c: Constraint, candidates: CandidateDomains) {
    c.ArithmeticConstraint? ==> ClueRows(candidates, c.expression) <= T.MAX_TABLE_COMBINATIONS
  }

  /** Every clue fits the table limit. */
  predicate WithinLimits(puzzle: Puzzle, candidates: CandidateDomains) {
    forall c :: c in puzzle.constraints ==> Tabulable(c, candidates)
  }

  // ----- fewer candidates, fewer rows -----

  lemma {:induction false} ProductGrows(a: nat, b: nat, c: nat, d: nat)
    requires a <= b && c <= d
    ensures a * c <= b * d
  {
    assert a * c <= b * c;
    assert b * c <= b * d;
  }

  ghost predicate Shrinks(fewer: CandidateDomains, candidates: CandidateDomains) {
    fewer.Keys == candidates.Keys && forall v :: v in fewer ==> fewer[v] <= candidates[v]
  }

  lemma {:induction false} RowsShrink(fewer: CandidateDomains, candidates: CandidateDomains, vs: seq<VariableId>)
    requires Shrinks(fewer, candidates)
    ensures Rows(fewer, vs) <= Rows(candidates, vs)
  {
    if vs != [] {
      RowsShrink(fewer, candidates, vs[1..]);
      var v := vs[0];
      if v in fewer {
        SubsetSize(fewer[v], candidates[v]);
      }
      ProductGrows(if v in fewer then |fewer[v]| else 0, if v in candidates then |candidates[v]| else 0,
                   Rows(fewer, vs[1..]), Rows(candidates, vs[1..]));
    }
  }

  lemma {:induction false} LimitsPersist(puzzle: Puzzle, fewer: CandidateDomains, candidates: CandidateDomains)
    requires Shrinks(fewer, candidates) && WithinLimits(puzzle, candidates)
    ensures WithinLimits(puzzle, fewer)
  {
    forall c | c in puzzle.constraints && c.ArithmeticConstraint? ensures Tabulable(c, fewer) {
      assert Tabulable(c, candidates);
      RowsShrink(fewer, candidates, Ascending(BooleanVariables(c.expression)));
    }
  }

  /** One candidate each means one row. */
  lemma {:induction false} SettledHasOneRow(candidates: CandidateDomains, vs: seq<VariableId>)
    requires forall v :: v in vs ==> v in candidates && |candidates[v]| == 1
    ensures Rows(candidates, vs) == 1
  {
    if vs != [] {
      var v := vs[0];
      assert vs == [v] + vs[1..] && v in vs;
      SettledHasOneRow(candidates, vs[1..]);
      assert |candidates[v]| == 1;
    }
  }

  // ----- the encoder counts the same rows -----

  lemma {:induction false} CodeDomainSize(item: VariableEncoding, start: nat)
    requires start <= |item.ids| && NoDuplicates(item.ids)
    ensures |T.CodeDomainFrom(item, start)| == |Elements(item.ids[start..]) * item.candidates|
    decreases |item.ids| - start
  {
    hide Elements;
    if start < |item.ids| {
      CodeDomainSize(item, start + 1);
      OneMore(item.ids[start..], item.candidates);
      assert item.ids[start..][1..] == item.ids[start + 1..];
    } else {
      assert Elements(item.ids[start..]) == {} by { NoElements<ValueId>(); }
      assert {} * item.candidates == {};
    }
  }

  lemma {:induction false} CombinationsAreRows(problem: Problem, candidates: CandidateDomains, vs: seq<VariableId>)
    requires forall i :: 0 <= i < |vs| ==> vs[i] in problem.variables
    requires forall v :: v in problem.variables ==>
      && v in candidates && problem.variables[v].candidates == candidates[v]
      && NoDuplicates(problem.variables[v].ids) && candidates[v] <= Elements(problem.variables[v].ids)
    ensures T.Combinations(T.CodeDomains(problem, vs)) == Rows(candidates, vs)
  {
    hide Elements, T.CodeDomainFrom;
    if vs != [] {
      var v := vs[0];
      CombinationsAreRows(problem, candidates, vs[1..]);
      assert T.CodeDomains(problem, vs)[1..] == T.CodeDomains(problem, vs[1..]);
      var item := problem.variables[v];
      CodeDomainSize(item, 0);
      assert item.ids[0..] == item.ids && Elements(item.ids) * item.candidates == item.candidates;
    }
  }

  // ----- no row raises -----

  lemma {:induction false} AdmittedIsSupported(e: BooleanExpression, variables: set<VariableId>, ordered: bool,
      complete: bool)
    requires Grid.Admitted(e, variables, ordered, complete)
    ensures T.GridSupported(e) && BooleanVariables(e) <= variables
    decreases e, 0
  {
    match e
    case Comparison(_, left, right) => AdmittedNumber(left, variables, complete); AdmittedNumber(right, variables, complete);
    case And(operands) => AllAdmittedAreSupported(operands, variables, ordered, complete);
    case Or(operands) => AllAdmittedAreSupported(operands, variables, ordered, complete);
    case Cardinality(operands, _, _) => AllAdmittedAreSupported(operands, variables, ordered, complete);
    case Not(operand) => AdmittedIsSupported(operand, variables, ordered, complete);
    case Xor(f, g) =>
      AdmittedIsSupported(f, variables, ordered, complete);
      AdmittedIsSupported(g, variables, ordered, complete);
    case Equivalent(f, g) =>
      AdmittedIsSupported(f, variables, ordered, complete);
      AdmittedIsSupported(g, variables, ordered, complete);
    case Implies(f, g) =>
      AdmittedIsSupported(f, variables, ordered, complete);
      AdmittedIsSupported(g, variables, ordered, complete);
  }

  lemma {:induction false} AllAdmittedAreSupported(es: seq<BooleanExpression>, variables: set<VariableId>,
      ordered: bool,
      complete: bool)
    requires Grid.AllAdmitted(es, variables, ordered, complete)
    ensures (forall e :: e in es ==> T.GridSupported(e)) && BooleanVariablesOfAll(es) <= variables
    decreases es, 1
  {
    if es != [] {
      AdmittedIsSupported(es[0], variables, ordered, complete);
      AllAdmittedAreSupported(es[1..], variables, ordered, complete);
      assert es == [es[0]] + es[1..];
    }
  }

  lemma {:induction false} AdmittedNumber(e: NumericExpression, variables: set<VariableId>, complete: bool)
    requires Grid.AdmittedNumber(e, variables, complete)
    ensures T.GridNumberSupported(e) && NumericVariables(e) <= variables
  {
    match e
    case Subtract(left, right) => AdmittedNumber(left, variables, complete); AdmittedNumber(right, variables, complete);
    case _ =>
  }

  function RowsAt(spec: GridSpec, codes: map<VariableId, int>): Assignment
    requires Shaped(spec) && forall v :: v in codes ==> 0 <= codes[v] < |Anchor(spec)|
  {
    map v | v in codes :: Anchor(spec)[codes[v]].id
  }

  lemma {:induction false} CodesAlign(spec: GridSpec, codes: map<VariableId, int>)
    requires Shaped(spec) && codes.Keys == spec.puzzle.variables.Keys
    requires forall v :: v in codes ==> 0 <= codes[v] < |Anchor(spec)|
    ensures Grid.Aligned(codes, RowsAt(spec, codes), Table(spec.puzzle), Anchor(spec), spec.puzzle.variables.Keys)
  {
    forall v | v in spec.puzzle.variables ensures Table(spec.puzzle)[v] == NumericOf(Anchor(spec)) {
      GridIds(spec, v);
    }
  }

  lemma {:induction false} AllCodesAreJudged(spec: GridSpec, e: BooleanExpression, codes: map<VariableId, int>)
    requires Valid(spec) && Grid.Admitted(e, spec.puzzle.variables.Keys, spec.ordered, Numeric(spec))
    requires codes.Keys == spec.puzzle.variables.Keys
    requires forall v :: v in codes ==> 0 <= codes[v] < |Anchor(spec)|
    ensures Grid.Judge(e, Grid.Codes(codes, Table(spec.puzzle))).Some?
  {
    assert spec.puzzle.WellFormed();
    hide ValidCategories, ValidGivens, ValidConstraints, Grid.Admitted, Grid.Judge, Grid.ValidAnchor, Anchor, Numeric, Grid.Aligned,
      Shaped, Grid.Encode, RowsAt, Table;
    CodesAlign(spec, codes);
    Grid.VerdictsAgree(e, codes, RowsAt(spec, codes), Table(spec.puzzle), Anchor(spec), spec.puzzle.variables.Keys, spec.ordered,
                       Numeric(spec));
  }

  /** The codes of some variables, with code zero for all others. */
  function Padded(all: set<VariableId>, codes: map<VariableId, int>): (r: map<VariableId, int>)
    ensures r.Keys == all && forall v :: v in all ==> r[v] == if v in codes then codes[v] else 0
  {
    map v | v in all :: if v in codes then codes[v] else 0
  }

  /** Any in-range codes of a clue's variables can be judged. */
  lemma {:induction false} CodesAreJudged(spec: GridSpec, e: BooleanExpression, codes: map<VariableId, int>)
    requires Valid(spec) && Grid.Admitted(e, spec.puzzle.variables.Keys, spec.ordered, Numeric(spec))
    requires BooleanVariables(e) <= codes.Keys
    requires forall v :: v in codes ==> 0 <= codes[v] < |Anchor(spec)|
    ensures Grid.Judge(e, Grid.Codes(codes, Table(spec.puzzle))).Some?
  {
    hide Valid, Grid.Admitted, Grid.Judge, Anchor, Numeric, BooleanVariables, Shaped, Table, Padded, Puzzle.WellFormed;
    EnoughRows(spec);
    AdmittedIsSupported(e, spec.puzzle.variables.Keys, spec.ordered, Numeric(spec));
    var all := Padded(spec.puzzle.variables.Keys, codes);
    AllCodesAreJudged(spec, e, all);
    SameCodesSameVerdict(e, codes, all, Table(spec.puzzle));
  }

  lemma {:induction false} SameCodesSameVerdict(e: BooleanExpression, codes: map<VariableId, int>,
      other: map<VariableId, int>, table: NumberTable)
    requires BooleanVariables(e) <= codes.Keys && BooleanVariables(e) <= other.Keys
    requires forall v :: v in BooleanVariables(e) ==> codes[v] == other[v]
    ensures Grid.Judge(e, Grid.Codes(codes, table)) == Grid.Judge(e, Grid.Codes(other, table))
  {
    hide Grid.Judge, BooleanVariables;
    Grid.VerdictIsLocal(e, Grid.Codes(codes, table), Grid.Codes(other, table));
  }

  lemma {:induction false} EnoughRows(spec: GridSpec)
    requires Valid(spec)
    ensures Shaped(spec) && spec.puzzle.WellFormed() && |Anchor(spec)| >= 2
  {
    hide ValidGivens, ValidConstraints, Grid.ValidAnchor;
  }

  // ----- tables of one clue -----

  /** The prepared problem over these candidates. */
  ghost predicate Presents(problem: Problem, spec: GridSpec, candidates: CandidateDomains)
    requires spec.puzzle.WellFormed()
  {
    && Carries(problem, spec.puzzle) && problem.variables.Keys == candidates.Keys
    && forall v :: v in problem.variables ==>
         problem.variables[v].candidates == candidates[v] && candidates[v] <= Elements(problem.variables[v].ids)
  }

  lemma {:induction false} ClueIsTabled(spec: GridSpec, problem: Problem, candidates: CandidateDomains,
      e: BooleanExpression)
    requires Valid(spec) && Presents(problem, spec, candidates)
    requires Grid.Admitted(e, spec.puzzle.variables.Keys, spec.ordered, Numeric(spec))
    ensures T.GridConstraints(problem, e).Ok? <==> ClueRows(candidates, e) <= T.MAX_TABLE_COMBINATIONS
  {
    hide ValidCategories, ValidGivens, ValidConstraints, Grid.Admitted, Grid.Judge, Grid.ValidAnchor, Anchor, T.Combinations,
      T.CodeDomain, T.GridRows, T.Product, Rows;
    var columns := Ascending(BooleanVariables(e));
    AscendingElements(BooleanVariables(e));
    AdmittedIsSupported(e, spec.puzzle.variables.Keys, spec.ordered, Numeric(spec));
    forall v | v in columns ensures v in problem.variables {
      assert v in BooleanVariables(e);
    }
    forall i | 0 <= i < |columns| ensures columns[i] in problem.variables {
      var v := columns[i];
      assert v in columns;
    }
    forall v | v in problem.variables ensures NoDuplicates(problem.variables[v].ids) && |problem.variables[v].ids| == |Anchor(spec)| {
      GridIds(spec, v);
    }
    CombinationsAreRows(problem, candidates, columns);
    var domains := T.CodeDomains(problem, columns);
    if T.Combinations(domains) <= T.MAX_TABLE_COMBINATIONS {
      T.ProductWidth(domains);
      forall row | row in T.Product(domains) && |row| == |columns| ensures T.GridRow(e, columns, row, problem.Table()).Some? {
        RowIsJudged(spec, problem, e, columns, row);
      }
    }
  }

  lemma {:induction false} RowIsJudged(spec: GridSpec, problem: Problem, e: BooleanExpression, columns: seq<VariableId>,
      row: seq<int>)
    requires Valid(spec) && Carries(problem, spec.puzzle)
    requires Grid.Admitted(e, spec.puzzle.variables.Keys, spec.ordered, Numeric(spec))
    requires Elements(columns) == BooleanVariables(e) && |row| == |columns|
    requires forall i :: 0 <= i < |columns| ==> columns[i] in problem.variables
    requires row in T.Product(T.CodeDomains(problem, columns))
    ensures T.GridRow(e, columns, row, problem.Table()).Some?
  {
    hide ValidCategories, ValidGivens, ValidConstraints, Grid.Admitted, Grid.Judge, Grid.ValidAnchor, Anchor, T.Product;
    T.ProductMember(T.CodeDomains(problem, columns), row);
    var codes := T.Zip(columns, row);
    forall v | v in codes ensures 0 <= codes[v] < |Anchor(spec)| {
      assert v in Elements(columns);
      var i := IndexOf(columns, v);
      T.CodeDomainMember(problem.variables[v], 0, row[i]);
      GridIds(spec, v);
    }
    CodesAreJudged(spec, e, codes);
  }

  // ----- the whole model -----

  /** The table backend can build its model exactly when every clue is within the limit. */
  lemma {:induction false} ModelIsBuilt(spec: GridSpec, problem: Problem, candidates: CandidateDomains)
    requires Valid(spec) && Presents(problem, spec, candidates) && WellEncoded(problem)
    requires forall c :: c in problem.constraints <==> c in spec.puzzle.constraints
    ensures T.Constraints(problem).Ok? <==> WithinLimits(spec.puzzle, candidates)
  {
    assert spec.puzzle.WellFormed();
    hide Valid, T.Translate, Tabulable, WellEncoded, Presents, T.Constraints;
    T.BuiltFromParts(problem);
    forall c | c in spec.puzzle.constraints ensures T.Translate(problem, c).Ok? <==> Tabulable(c, candidates) {
      ConstraintIsTranslated(spec, problem, candidates, c);
    }
  }

  lemma {:induction false} ConstraintIsTranslated(spec: GridSpec, problem: Problem, candidates: CandidateDomains,
      c: Constraint)
    requires Valid(spec) && Presents(problem, spec, candidates) && c in spec.puzzle.constraints
    ensures T.Translate(problem, c).Ok? <==> Tabulable(c, candidates)
  {
    hide ValidCategories, ValidGivens, Grid.Admitted, Grid.ValidAnchor, T.GridConstraints, ClueRows, CoversCategory,
      HasBijection;
    assert ValidConstraint(spec, c);
    if c.AllDifferentConstraint? {
      ListedAreVariables(spec, c.variables);
    } else {
      ClueIsTabled(spec, problem, candidates, c.expression);
    }
  }

  lemma {:induction false} ListedAreVariables(spec: GridSpec, vs: seq<VariableId>)
    requires Valid(spec) && CoversCategory(spec, vs)
    ensures forall v :: v in vs ==> v in spec.puzzle.variables
  {
    hide ValidGivens, ValidConstraints, Grid.ValidAnchor;
    var i :| 0 <= i < |spec.categories| && Elements(vs) == Elements(spec.categories[i].variables);
    forall v | v in vs ensures v in spec.puzzle.variables {
      assert v in Elements(vs);
      assert v in spec.categories[i].variables;
    }
  }

  // ----- the table solver's side of a decision -----

  /** A truthful table solver that never gives up. */
  ghost predicate DecisiveTables(solver: T.CpSolver) {
    T.Truthful(solver) && forall input :: solver(input) != T.UnknownStatus
  }

  lemma {:induction false} EnumerationIsDecisive()
    ensures DecisiveTables(T.Enumerate)
  {
    T.EnumerationIsTruthful();
  }

  /** It confirms an entailed claim exactly when every clue can be tabulated, and otherwise rejects it. */
  lemma {:induction false} TablesConfirm(solver: T.CpSolver, spec: GridSpec, state: PuzzleState, obligation: Obligation)
    requires Valid(spec) && DecisiveTables(solver) && Prepare(spec.puzzle, state, obligation).Ok?
    requires state.active == (set c | c in spec.puzzle.constraints :: c.id)
    requires exists a :: Base(spec.puzzle, state, obligation, a)
    requires forall a :: Base(spec.puzzle, state, obligation, a) ==> AtomHolds(obligation.conclusion, a)
    ensures T.Verify(solver, spec.puzzle, state, obligation) ==
      if WithinLimits(spec.puzzle, state.candidates) then UnsatResult else InvalidResult
  {
    assert spec.puzzle.WellFormed();
    hide Valid, Prepare, Base, WellEncoded, Presents, Poses, T.Solvable, T.Constraints, AtomHolds, WithinLimits,
      T.AtomConstraint, T.Truthful;
    var problem := Prepare(spec.puzzle, state, obligation).value;
    PreparedPresents(spec, state, obligation);
    PreparedIsWellEncoded(spec.puzzle, state, obligation);
    PreparedPoses(spec.puzzle, state, obligation);
    ModelIsBuilt(spec, problem, state.candidates);
    if T.Constraints(problem).Ok? {
      T.SolvableIffBase(spec.puzzle, state, obligation, problem);
      T.SolvableIffCounterexample(spec.puzzle, state, obligation, problem);
      T.DecisiveConfirms(solver, problem);
    }
  }

  lemma {:induction false} PreparedPresents(spec: GridSpec, state: PuzzleState, obligation: Obligation)
    requires Valid(spec) && Prepare(spec.puzzle, state, obligation).Ok?
    requires state.active == (set c | c in spec.puzzle.constraints :: c.id)
    ensures var problem := Prepare(spec.puzzle, state, obligation).value;
      && Presents(problem, spec, state.candidates)
      && forall c :: c in problem.constraints <==> c in spec.puzzle.constraints
  {
    hide ValidCategories, ValidGivens, ValidConstraints, Grid.ValidAnchor, Representable, AllAgree, ListsDiffer;
    PreparedCarries(spec.puzzle, state, obligation);
    forall v | v in state.candidates ensures state.candidates[v] <= Elements(Ids(spec.puzzle, v)) {
      assert state.candidates[v] <= FullDomain(spec.puzzle, v);
    }
  }
}

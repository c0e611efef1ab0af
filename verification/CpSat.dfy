/** The truth-table proof backend: allowed-assignment tables over current candidates. */
module CpSat {
  import opened Prelude
  import opened Domain
  import opened State
  import opened Solutions
  import opened Encoding
  import Equations
  import Grid

  type Codes = map<VariableId, int>

  datatype CpConstraint =
    | CodeIs(v: VariableId, code: int)
    | CodeIsNot(v: VariableId, code: int)
    | AllDifferentCodes(vs: seq<VariableId>)
    | AllowedRows(columns: seq<VariableId>, rows: seq<seq<int>>)
    | Never

  predicate Satisfied(c: CpConstraint, codes: Codes) {
    match c
    case CodeIs(v, code) => v in codes && codes[v] == code
    case CodeIsNot(v, code) => v in codes && codes[v] != code
    case AllDifferentCodes(vs) => CodesDiffer(vs, codes)
    case AllowedRows(columns, rows) =>
      (forall i :: 0 <= i < |columns| ==> columns[i] in codes) && RowOf(columns, codes) in rows
    case Never => false
  }

  /** The codes of the listed columns, in order. */
  function RowOf(columns: seq<VariableId>, codes: Codes): (row: seq<int>)
    requires forall i :: 0 <= i < |columns| ==> columns[i] in codes
    ensures |row| == |columns| && forall i :: 0 <= i < |columns| ==> row[i] == codes[columns[i]]
  {
    seq(|columns|, i requires 0 <= i < |columns| => codes[columns[i]])
  }

  // ----- itertools.product -----

  /** Each of `xs`, in order, put before each of `rows`. */
  function Prefixed(xs: seq<int>, rows: seq<seq<int>>): seq<seq<int>> {
    if xs == [] then [] else PrefixOne(xs[0], rows) + Prefixed(xs[1..], rows)
  }

  function PrefixOne(x: int, rows: seq<seq<int>>): (r: seq<seq<int>>)
    ensures |r| == |rows| && forall i :: 0 <= i < |rows| ==> r[i] == [x] + rows[i]
  {
    seq(|rows|, i requires 0 <= i < |rows| => [x] + rows[i])
  }

  function Product(domains: seq<seq<int>>): seq<seq<int>> {
    if domains == [] then [[]] else Prefixed(domains[0], Product(domains[1..]))
  }

  predicate Picks(row: seq<int>, domains: seq<seq<int>>) {
    |row| == |domains| && forall i :: 0 <= i < |row| ==> row[i] in domains[i]
  }

  lemma {:induction false} PrefixedMember(xs: seq<int>, rows: seq<seq<int>>, row: seq<int>)
    ensures row in Prefixed(xs, rows) <==> row != [] && row[0] in xs && row[1..] in rows
  {
    if xs != [] {
      PrefixedMember(xs[1..], rows, row);
      assert xs == [xs[0]] + xs[1..];
      var first := PrefixOne(xs[0], rows);
      if row in first {
        var i :| 0 <= i < |first| && first[i] == row;
        assert row[1..] == rows[i];
      }
      if row != [] && row[0] == xs[0] && row[1..] in rows {
        var i :| 0 <= i < |rows| && rows[i] == row[1..];
        assert first[i] == row;
      }
    }
  }

  /** The product lists every way to pick one entry from each domain, and nothing else. */
  lemma {:induction false} ProductMember(domains: seq<seq<int>>, row: seq<int>)
    ensures row in Product(domains) <==> Picks(row, domains)
  {
    if domains != [] {
      PrefixedMember(domains[0], Product(domains[1..]), row);
      if row != [] {
        ProductMember(domains[1..], row[1..]);
        assert forall i :: 0 <= i < |row| - 1 ==> row[1..][i] == row[i + 1];
        if Picks(row, domains) {
          assert forall i :: 0 <= i < |row| - 1 ==> row[1..][i] in domains[1..][i];
        }
        if row[0] in domains[0] && Picks(row[1..], domains[1..]) {
          forall i | 0 <= i < |row| ensures row[i] in domains[i] {
            assert i > 0 ==> row[i] == row[1..][i - 1] && domains[i] == domains[1..][i - 1];
          }
        }
      }
    }
  }

  function Combinations(domains: seq<seq<int>>): nat {
    if domains == [] then 1 else |domains[0]| * Combinations(domains[1..])
  }

  const MAX_TABLE_COMBINATIONS: nat := 1_000_000

  // ----- tables -----

  /** The codes of a variable's current candidates, ascending. */
  function CodeDomain(item: VariableEncoding): seq<int> {
    CodeDomainFrom(item, 0)
  }

  function CodeDomainFrom(item: VariableEncoding, start: nat): seq<int>
    decreases |item.ids| - start
  {
    if start >= |item.ids| then []
    else (if item.ids[start] in item.candidates then [start] else []) + CodeDomainFrom(item, start + 1)
  }

  lemma {:induction false} CodeDomainMember(item: VariableEncoding, start: nat, code: int)
    ensures code in CodeDomainFrom(item, start)
      <==> start <= code < |item.ids| && item.ids[code] in item.candidates
    decreases |item.ids| - start
  {
    if start < |item.ids| {
      CodeDomainMember(item, start + 1, code);
    }
  }

  function CodeDomains(problem: Problem, vs: seq<VariableId>): (r: seq<seq<int>>)
    requires forall i :: 0 <= i < |vs| ==> vs[i] in problem.variables
    ensures |r| == |vs| && forall i :: 0 <= i < |vs| ==> r[i] == CodeDomain(problem.variables[vs[i]])
  {
    seq(|vs|, i requires 0 <= i < |vs| => CodeDomain(problem.variables[vs[i]]))
  }

  /** `dict(zip(columns, row))` */
  function Zip(columns: seq<VariableId>, row: seq<int>): (codes: Codes)
    requires |columns| == |row|
    ensures codes.Keys == Elements(columns)
  {
    map v | v in columns :: row[IndexOf(columns, v)]
  }

  lemma {:induction false} ZipRow(columns: seq<VariableId>, codes: Codes)
    requires forall i :: 0 <= i < |columns| ==> columns[i] in codes
    ensures Zip(columns, RowOf(columns, codes)) == Restrict(codes, Elements(columns))
  {
    forall v | v in columns ensures v in codes && Zip(columns, RowOf(columns, codes))[v] == codes[v] {
      var i := IndexOf(columns, v);
      assert columns[i] in codes;
    }
  }

  /** Whether the row, read as integers, satisfies the clue. */
  predicate EquationRow(e: BooleanExpression, columns: seq<VariableId>, row: seq<int>, table: NumberTable)
    requires |columns| == |row| && Elements(columns) == BooleanVariables(e)
    requires forall v :: v in columns ==> v in table && AllIntegers(table[v])
  {
    var codes := Zip(columns, row);
    (forall v :: v in columns ==> 0 <= codes[v] < |table[v]|)
    && Equations.Holds(Equations.TableDialect, e,
                       map v | v in BooleanVariables(e) :: IntegerAt(table[v], codes[v]))
  }

  function EquationRows(e: BooleanExpression, columns: seq<VariableId>, rows: seq<seq<int>>, table: NumberTable)
    : (r: seq<seq<int>>)
    requires Elements(columns) == BooleanVariables(e)
    requires forall v :: v in columns ==> v in table && AllIntegers(table[v])
    requires forall row :: row in rows ==> |row| == |columns|
    ensures forall row :: row in r <==> row in rows && |row| == |columns| && EquationRow(e, columns, row, table)
  {
    if rows == [] then []
    else
      var earlier, last := rows[..|rows| - 1], rows[|rows| - 1];
      assert rows == earlier + [last];
      var kept := EquationRows(e, columns, earlier, table);
      if EquationRow(e, columns, last, table) then kept + [last] else kept
  }

  lemma {:induction false} ProductWidth(domains: seq<seq<int>>)
    ensures forall row :: row in Product(domains) ==> |row| == |domains|
  {
    forall row | row in Product(domains) ensures |row| == |domains| {
      ProductMember(domains, row);
    }
  }

  /** Why a table is refused: an unknown variable, too many combinations, or a non-integer value. */
  predicate EquationRefused(problem: Problem, columns: seq<VariableId>) {
    || (exists i :: 0 <= i < |columns| && columns[i] !in problem.variables)
    || Combinations(CodeDomains(problem, columns)) > MAX_TABLE_COMBINATIONS
    || exists i :: 0 <= i < |columns| && !AllIntegers(problem.variables[columns[i]].numbers)
  }

  function EquationTable(problem: Problem, e: BooleanExpression): CpConstraint
    requires !EquationRefused(problem, Ascending(BooleanVariables(e)))
  {
    var columns := Ascending(BooleanVariables(e));
    AscendingElements(BooleanVariables(e));
    ProductWidth(CodeDomains(problem, columns));
    ColumnsAreIntegers(problem, columns);
    AllowedRows(columns, EquationRows(e, columns, Product(CodeDomains(problem, columns)), problem.Table()))
  }

  lemma {:induction false} ColumnsAreIntegers(problem: Problem, columns: seq<VariableId>)
    requires !EquationRefused(problem, columns)
    ensures forall v :: v in columns ==> v in problem.Table() && AllIntegers(problem.Table()[v])
  {
    forall v | v in columns ensures v in problem.Table() && AllIntegers(problem.Table()[v]) {
      var i :| 0 <= i < |columns| && columns[i] == v;
      assert columns[i] in problem.variables;
    }
  }

  /** The table for a Logic Equations clue, or a refusal; a clue without variables is decided now. */
  function EquationConstraints(problem: Problem, e: BooleanExpression): Result<set<CpConstraint>> {
    if !Equations.Supported(e) then Err(Error.Encoding)
    else if BooleanVariables(e) == {} then
      if Equations.Holds(Equations.TableDialect, e, map[]) then Ok({}) else Ok({Never})
    else if EquationRefused(problem, Ascending(BooleanVariables(e))) then Err(Error.Encoding)
    else Ok({EquationTable(problem, e)})
  }

  /** The kinds the Logic Grid variable collector accepts. */
  predicate GridNumberSupported(e: NumericExpression) {
    match e
    case Constant(_) => true
    case VariableReference(_) => true
    case Subtract(left, right) => GridNumberSupported(left) && GridNumberSupported(right)
    case _ => false
  }

  predicate GridSupported(e: BooleanExpression) {
    match e
    case Comparison(_, left, right) => GridNumberSupported(left) && GridNumberSupported(right)
    case And(operands) => forall o :: o in operands ==> GridSupported(o)
    case Or(operands) => forall o :: o in operands ==> GridSupported(o)
    case Cardinality(operands, _, _) => forall o :: o in operands ==> GridSupported(o)
    case Not(operand) => GridSupported(operand)
    case Xor(first, second) => GridSupported(first) && GridSupported(second)
    case Equivalent(first, second) => GridSupported(first) && GridSupported(second)
    case Implies(premise, conclusion) => GridSupported(premise) && GridSupported(conclusion)
    case AllDifferent(_) => false
  }

  function GridRow(e: BooleanExpression, columns: seq<VariableId>, row: seq<int>, table: NumberTable)
    : Option<bool>
    requires |columns| == |row|
  {
    Grid.Judge(e, Grid.Codes(Zip(columns, row), table))
  }

  /** The accepted rows, in order; one row that raises refuses the whole table. */
  function GridRows(e: BooleanExpression, columns: seq<VariableId>, rows: seq<seq<int>>, table: NumberTable)
    : (r: Result<seq<seq<int>>>)
    requires forall row :: row in rows ==> |row| == |columns|
    ensures r.Ok? ==> forall row ::
      row in r.value <==> row in rows && |row| == |columns| && GridRow(e, columns, row, table) == Some(true)
    ensures r.Err? <==> exists row :: row in rows && |row| == |columns| && GridRow(e, columns, row, table).None?
  {
    if rows == [] then Ok([])
    else
      var earlier, last := rows[..|rows| - 1], rows[|rows| - 1];
      assert rows == earlier + [last];
      var kept := GridRows(e, columns, earlier, table);
      if kept.Err? then kept
      else
        match GridRow(e, columns, last, table)
        case None => Err(Error.Encoding)
        case Some(b) => Ok(if b then kept.value + [last] else kept.value)
  }

  /** The table for a Logic Grid clue, or a refusal. */
  function GridConstraints(problem: Problem, e: BooleanExpression): Result<set<CpConstraint>> {
    var columns := Ascending(BooleanVariables(e));
    if !GridSupported(e) then Err(Error.Encoding)
    else if exists v :: v in columns && v !in problem.variables then Err(Error.Encoding)
    else
      assert forall i :: 0 <= i < |columns| ==> var v := columns[i]; v in columns;
      var domains := CodeDomains(problem, columns);
      if Combinations(domains) > MAX_TABLE_COMBINATIONS then Err(Error.Encoding)
      else
        ProductWidth(domains);
        var rows :- GridRows(e, columns, Product(domains), problem.Table());
        Ok({AllowedRows(columns, rows)})
  }

  function ClueConstraints(problem: Problem, e: BooleanExpression): Result<set<CpConstraint>> {
    if problem.family == LOGIC_GRID_FAMILY then GridConstraints(problem, e)
    else EquationConstraints(problem, e)
  }

  /** The loop over `product(*code_domains)` that collects the accepted rows. */
  method KeepRows(e: BooleanExpression, columns: seq<VariableId>, rows: seq<seq<int>>, table: NumberTable)
    returns (allowed: seq<seq<int>>)
    requires Elements(columns) == BooleanVariables(e)
    requires forall v :: v in columns ==> v in table && AllIntegers(table[v])
    requires forall row :: row in rows ==> |row| == |columns|
    ensures allowed == EquationRows(e, columns, rows, table)
  {
    hide EquationRow, BooleanVariables, Elements, AllIntegers;
    allowed := [];
    for i := 0 to |rows|
      invariant allowed == EquationRows(e, columns, rows[..i], table)
    {
      assert rows[..i + 1][..i] == rows[..i];
      if EquationRow(e, columns, rows[i], table) {
        allowed := allowed + [rows[i]];
      }
    }
    assert rows[..|rows|] == rows;
  }

  /** The native model, which the encoders add constraints to. */
  class CpModel {
    var constraints: set<CpConstraint>

    constructor ()
      ensures constraints == {}
    {
      constraints := {};
    }

    method Add(c: CpConstraint)
      modifies this
      ensures constraints == old(constraints) + {c}
    {
      constraints := constraints + {c};
    }

    /** `add_cpsat_arithmetic_constraint`: walks the product of the code domains, keeping the rows the
        evaluator accepts; refusals leave the model as it was. */
    method AddArithmetic(e: BooleanExpression, problem: Problem) returns (ok: bool)
      modifies this
      ensures ok <==> EquationConstraints(problem, e).Ok?
      ensures constraints == old(constraints) + if ok then EquationConstraints(problem, e).value else {}
    {
      if !Equations.Supported(e) {
        return false;
      }
      if BooleanVariables(e) == {} {
        if !Equations.Holds(Equations.TableDialect, e, map[]) {
          Add(Never);
        }
        return true;
      }
      var columns := Ascending(BooleanVariables(e));
      if EquationRefused(problem, columns) {
        return false;
      }
      AscendingElements(BooleanVariables(e));
      ProductWidth(CodeDomains(problem, columns));
      ColumnsAreIntegers(problem, columns);
      var allowed := KeepRows(e, columns, Product(CodeDomains(problem, columns)), problem.Table());
      Add(AllowedRows(columns, allowed));
      return true;
    }
  }

  // ----- the whole model -----

  /** `v` is not one of the given declared values. */
  function NoneOf(problem: Problem, v: VariableId, xs: set<ValueId>): set<CpConstraint>
    requires v in problem.variables && xs <= Elements(problem.variables[v].ids)
  {
    set x | x in xs :: CodeIsNot(v, IndexOf(problem.variables[v].ids, x))
  }

  function AtomConstraint(atom: Atom, problem: Problem): CpConstraint
    requires !atom.OtherAtom? && atom.variable in problem.variables
    requires atom.value in problem.variables[atom.variable].ids
  {
    var code := IndexOf(problem.variables[atom.variable].ids, atom.value);
    if atom.AssignmentAtom? then CodeIs(atom.variable, code) else CodeIsNot(atom.variable, code)
  }

  function Translate(problem: Problem, c: Constraint): Result<set<CpConstraint>> {
    match c
    case DomainConstraint(_, v, allowed) =>
      if v in problem.variables
      then Ok(NoneOf(problem, v, Elements(problem.variables[v].ids) - Elements(allowed)))
      else Err(Error.Encoding)
    case AllDifferentConstraint(_, vs) =>
      if forall v :: v in vs ==> v in problem.variables then Ok({AllDifferentCodes(vs)}) else Err(Error.Encoding)
    case ArithmeticConstraint(_, e) => ClueConstraints(problem, e)
    case OtherConstraint(_) => Err(Error.Encoding)
  }

  function CandidateConstraints(problem: Problem): set<CpConstraint> {
    set v, c | v in problem.variables
      && c in NoneOf(problem, v, Elements(problem.variables[v].ids) - problem.variables[v].candidates) :: c
  }

  function Translated(problem: Problem): Result<set<CpConstraint>> {
    if exists c :: c in problem.constraints && Translate(problem, c).Err? then Err(Error.Encoding)
    else Ok(set c, t | c in problem.constraints && t in Translate(problem, c).value :: t)
  }

  function AtomConstraints(problem: Problem): set<CpConstraint>
    requires WellEncoded(problem)
  {
    (set atom | atom in problem.asserted :: AtomConstraint(atom, problem))
    + (set atom | atom in problem.assumptions :: AtomConstraint(atom, problem))
  }

  function Constraints(problem: Problem): Result<set<CpConstraint>>
    requires WellEncoded(problem)
  {
    var translated :- Translated(problem);
    Ok(CandidateConstraints(problem) + translated + AtomConstraints(problem))
  }

  lemma {:induction false} BuiltFromParts(problem: Problem)
    requires WellEncoded(problem)
    ensures Constraints(problem).Ok? <==> forall c :: c in problem.constraints ==> Translate(problem, c).Ok?
  {
    hide WellEncoded, Translate, CandidateConstraints, AtomConstraints;
  }

  // ----- the solver and the order of its checks -----

  datatype CpStatus = Infeasible | Feasible | UnknownStatus | ModelInvalid

  /** Variables with the number of their codes, and the constraints on them. */
  datatype CpInput = CpInput(sizes: map<VariableId, nat>, constraints: set<CpConstraint>)

  type CpSolver = CpInput -> CpStatus

  predicate Solves(codes: Codes, input: CpInput) {
    && codes.Keys == input.sizes.Keys
    && (forall v :: v in codes ==> 0 <= codes[v] < input.sizes[v])
    && (forall c :: c in input.constraints ==> Satisfied(c, codes))
  }

  ghost predicate Solvable(input: CpInput) {
    exists codes :: Solves(codes, input)
  }

  /** The encoders build no malformed models, so a solver that tells the truth never rejects one. */
  ghost predicate Truthful(solver: CpSolver) {
    forall input ::
      && solver(input) != ModelInvalid
      && (solver(input) == Feasible ==> Solvable(input))
      && (solver(input) == Infeasible ==> !Solvable(input))
  }

  function Sizes(problem: Problem): map<VariableId, nat> {
    map v | v in problem.variables :: |problem.variables[v].ids|
  }

  /** A base status other than infeasible or unknown goes on to the claim, as in the source. */
  function Check(solver: CpSolver, problem: Problem): BackendResult
    requires WellEncoded(problem)
  {
    var constraints := Constraints(problem);
    if constraints.Err? then InvalidResult
    else
      match solver(CpInput(Sizes(problem), constraints.value))
      case Infeasible => InvalidResult
      case UnknownStatus => UnknownResult
      case _ =>
        match solver(CpInput(Sizes(problem), constraints.value + {AtomConstraint(problem.counter, problem)}))
        case Infeasible => UnsatResult
        case Feasible => SatResult
        case UnknownStatus => UnknownResult
        case ModelInvalid => InvalidResult
  }

  function Verify(solver: CpSolver, puzzle: Puzzle, state: PuzzleState, obligation: Obligation): BackendResult
    requires puzzle.WellFormed()
  {
    var problem := Prepare(puzzle, state, obligation);
    if problem.Err? then InvalidResult
    else
      PreparedIsWellEncoded(puzzle, state, obligation);
      Check(solver, problem.value)
  }

  // ----- solutions of the model are solutions of the puzzle -----

  /** Every variable's code stands for one of its candidates. */
  ghost predicate Fits(problem: Problem, codes: Codes) {
    && codes.Keys == problem.variables.Keys
    && forall v :: v in codes ==>
         0 <= codes[v] < |problem.variables[v].ids|
         && problem.variables[v].ids[codes[v]] in problem.variables[v].candidates
  }

  lemma {:induction false} RowIsListed(problem: Problem, columns: seq<VariableId>, codes: Codes)
    requires Fits(problem, codes)
    requires forall i :: 0 <= i < |columns| ==> columns[i] in problem.variables
    ensures forall i :: 0 <= i < |columns| ==> columns[i] in codes
    ensures RowOf(columns, codes) in Product(CodeDomains(problem, columns))
  {
    forall i | 0 <= i < |columns| ensures columns[i] in codes {
      assert columns[i] in problem.variables.Keys;
    }
    var row, domains := RowOf(columns, codes), CodeDomains(problem, columns);
    forall i | 0 <= i < |row| ensures row[i] in domains[i] {
      var v := columns[i];
      assert v in codes;
      CodeDomainMember(problem.variables[v], 0, codes[v]);
    }
    ProductMember(domains, row);
  }

  /** Among current candidates, the Logic Equations table accepts exactly the rows the clue holds on. */
  lemma {:induction false} EquationTableMeans(problem: Problem, e: BooleanExpression, codes: Codes)
    requires Fits(problem, codes) && EquationConstraints(problem, e).Ok?
    requires forall v :: v in problem.variables ==> |problem.variables[v].numbers| == |problem.variables[v].ids|
    requires problem.family != LOGIC_GRID_FAMILY
    ensures (forall c :: c in EquationConstraints(problem, e).value ==> Satisfied(c, codes))
      <==> ClueHolds(problem.family, e, codes, problem.Table())
  {
    if BooleanVariables(e) == {} {
      assert IntegersAt({}, codes, problem.Table()) == map[];
    } else {
      EquationRowsMean(problem, e, codes);
      assert EquationConstraints(problem, e).value == {EquationTable(problem, e)};
    }
  }

  lemma {:induction false} EquationRowsMean(problem: Problem, e: BooleanExpression, codes: Codes)
    requires Fits(problem, codes) && !EquationRefused(problem, Ascending(BooleanVariables(e)))
    requires forall v :: v in problem.variables ==> |problem.variables[v].numbers| == |problem.variables[v].ids|
    requires Equations.Supported(e) && problem.family != LOGIC_GRID_FAMILY
    ensures Satisfied(EquationTable(problem, e), codes)
      <==> ClueHolds(problem.family, e, codes, problem.Table())
  {
    var columns, table := Ascending(BooleanVariables(e)), problem.Table();
    AscendingElements(BooleanVariables(e));
    RowIsListed(problem, columns, codes);
    ProductWidth(CodeDomains(problem, columns));
    ColumnsAreIntegers(problem, columns);
    assert CodesFit(BooleanVariables(e), codes, table) by {
      assert forall v :: v in BooleanVariables(e) ==> v in columns;
    }
    EquationRowMeans(e, columns, codes, table);
  }

  /** Reading the clue's columns from a row of codes is reading its variables from all the codes. */
  lemma {:induction false} EquationRowMeans(e: BooleanExpression, columns: seq<VariableId>, codes: Codes,
      table: NumberTable)
    requires Elements(columns) == BooleanVariables(e) && CodesFit(BooleanVariables(e), codes, table)
    requires forall v :: v in columns ==> v in table && AllIntegers(table[v])
    ensures forall i :: 0 <= i < |columns| ==> columns[i] in codes
    ensures forall v :: v in BooleanVariables(e) ==> AllIntegers(table[v])
    ensures EquationRow(e, columns, RowOf(columns, codes), table) <==>
      Equations.Holds(Equations.TableDialect, e, IntegersAt(BooleanVariables(e), codes, table))
  {
    var vs := BooleanVariables(e);
    assert forall v :: v in vs <==> v in columns;
    forall i | 0 <= i < |columns| ensures columns[i] in codes {
      var v := columns[i];
      assert v in columns;
    }
    ZipRow(columns, codes);
    var zipped := Zip(columns, RowOf(columns, codes));
    assert forall v :: v in vs ==> zipped[v] == codes[v];
    assert (map v | v in vs :: IntegerAt(table[v], zipped[v])) == IntegersAt(vs, codes, table);
  }

  /** The same for Logic Grid tables. */
  lemma {:induction false} GridTableMeans(problem: Problem, e: BooleanExpression, codes: Codes)
    requires Fits(problem, codes) && GridConstraints(problem, e).Ok?
    requires problem.family == LOGIC_GRID_FAMILY
    ensures (forall c :: c in GridConstraints(problem, e).value ==> Satisfied(c, codes))
      <==> ClueHolds(problem.family, e, codes, problem.Table())
  {
    var columns, table := Ascending(BooleanVariables(e)), problem.Table();
    AscendingElements(BooleanVariables(e));
    forall i | 0 <= i < |columns| ensures columns[i] in problem.variables {
      var v := columns[i];
      assert v in columns;
    }
    RowIsListed(problem, columns, codes);
    var row, rows := RowOf(columns, codes), Product(CodeDomains(problem, columns));
    ProductWidth(CodeDomains(problem, columns));
    ZipRow(columns, codes);
    var c := AllowedRows(columns, GridRows(e, columns, rows, table).value);
    assert GridConstraints(problem, e).value == {c};
    assert Satisfied(c, codes) <==> GridRow(e, columns, row, table) == Some(true);
  }

  ghost function Decode(puzzle: Puzzle, codes: Codes): Assignment
    requires puzzle.WellFormed()
    requires codes.Keys == puzzle.variables.Keys && forall v :: v in codes ==> 0 <= codes[v] < |Ids(puzzle, v)|
  {
    map v | v in puzzle.variables :: Ids(puzzle, v)[codes[v]]
  }

  lemma {:induction false} DecodeCodes(puzzle: Puzzle, codes: Codes)
    requires puzzle.WellFormed()
    requires codes.Keys == puzzle.variables.Keys && forall v :: v in codes ==> 0 <= codes[v] < |Ids(puzzle, v)|
    ensures Complete(puzzle, Decode(puzzle, codes))
    ensures CodesOf(puzzle, Decode(puzzle, codes)) == codes
  {
    forall v | v in puzzle.variables ensures IndexOf(Ids(puzzle, v), Decode(puzzle, codes)[v]) == codes[v] {
      IndexIsUnique(Ids(puzzle, v), codes[v]);
    }
  }

  /** Excluding a set of values from a variable. */
  lemma {:induction false} NoneOfMeans(problem: Problem, v: VariableId, xs: set<ValueId>, codes: Codes)
    requires v in problem.variables && xs <= Elements(problem.variables[v].ids)
    requires NoDuplicates(problem.variables[v].ids)
    requires v in codes && 0 <= codes[v] < |problem.variables[v].ids|
    ensures (forall c :: c in NoneOf(problem, v, xs) ==> Satisfied(c, codes))
      <==> problem.variables[v].ids[codes[v]] !in xs
  {
    var ids := problem.variables[v].ids;
    IndexIsUnique(ids, codes[v]);
    var x := ids[codes[v]];
    if x in xs {
      assert CodeIsNot(v, IndexOf(ids, x)) in NoneOf(problem, v, xs);
    }
  }

  lemma {:induction false} AtomConstraintMeans(puzzle: Puzzle, problem: Problem, atom: Atom, codes: Codes)
    requires puzzle.WellFormed() && Carries(problem, puzzle) && Representable(atom, puzzle)
    requires codes.Keys == puzzle.variables.Keys && forall v :: v in codes ==> 0 <= codes[v] < |Ids(puzzle, v)|
    ensures Satisfied(AtomConstraint(atom, problem), codes) <==> AtomHolds(atom, Decode(puzzle, codes))
  {
    IndexIsUnique(Ids(puzzle, atom.variable), codes[atom.variable]);
  }

  lemma {:induction false} TranslationMeans(puzzle: Puzzle, problem: Problem, c: Constraint, codes: Codes)
    requires puzzle.WellFormed() && Carries(problem, puzzle) && Fits(problem, codes)
    requires Translate(problem, c).Ok?
    requires Complete(puzzle, Decode(puzzle, codes)) && CodesOf(puzzle, Decode(puzzle, codes)) == codes
    ensures (forall t :: t in Translate(problem, c).value ==> Satisfied(t, codes))
      <==> ConstraintHolds(puzzle, c, Decode(puzzle, codes))
  {
    hide ClueConstraints, ClueHolds, Carries, Fits, Complete, Problem.Table, Puzzle.WellFormed;
    match c
    case DomainConstraint(_, v, allowed) => AllowedMeans(puzzle, problem, v, allowed, codes);
    case AllDifferentConstraint(_, vs) =>
    case ArithmeticConstraint(_, e) => ClueTableMeans(puzzle, problem, e, codes);
  }

  lemma {:induction false} AllowedMeans(puzzle: Puzzle, problem: Problem, v: VariableId, allowed: seq<ValueId>,
      codes: Codes)
    requires puzzle.WellFormed() && Carries(problem, puzzle) && Fits(problem, codes) && v in problem.variables
    ensures (forall t :: t in NoneOf(problem, v, Elements(problem.variables[v].ids) - Elements(allowed))
               ==> Satisfied(t, codes))
      <==> Decode(puzzle, codes)[v] in allowed
    ensures v in puzzle.variables
  {
    NoneOfMeans(problem, v, Elements(problem.variables[v].ids) - Elements(allowed), codes);
  }

  lemma {:induction false} ClueTableMeans(puzzle: Puzzle, problem: Problem, e: BooleanExpression, codes: Codes)
    requires puzzle.WellFormed() && Carries(problem, puzzle) && Fits(problem, codes)
    requires ClueConstraints(problem, e).Ok?
    ensures (forall t :: t in ClueConstraints(problem, e).value ==> Satisfied(t, codes))
      <==> ClueHolds(puzzle.family, e, codes, Table(puzzle))
  {
    if problem.family == LOGIC_GRID_FAMILY {
      GridTableMeans(problem, e, codes);
    } else {
      forall v | v in problem.variables ensures |problem.variables[v].numbers| == |problem.variables[v].ids| {
        assert problem.Table()[v] == Table(puzzle)[v];
      }
      EquationTableMeans(problem, e, codes);
    }
  }

  lemma {:induction false} CandidateConstraintsMean(problem: Problem, codes: Codes)
    requires codes.Keys == problem.variables.Keys
    requires forall v :: v in codes ==> 0 <= codes[v] < |problem.variables[v].ids|
    requires forall v :: v in problem.variables ==> NoDuplicates(problem.variables[v].ids)
    ensures (forall c :: c in CandidateConstraints(problem) ==> Satisfied(c, codes)) <==> Fits(problem, codes)
  {
    forall v | v in problem.variables
      ensures (forall c :: c in NoneOf(problem, v, Elements(problem.variables[v].ids) - problem.variables[v].candidates)
                 ==> Satisfied(c, codes))
        <==> problem.variables[v].ids[codes[v]] in problem.variables[v].candidates
    {
      NoneOfMeans(problem, v, Elements(problem.variables[v].ids) - problem.variables[v].candidates, codes);
    }
    if forall c :: c in CandidateConstraints(problem) ==> Satisfied(c, codes) {
      forall v, c | v in problem.variables
        && c in NoneOf(problem, v, Elements(problem.variables[v].ids) - problem.variables[v].candidates)
        ensures Satisfied(c, codes)
      {
        assert c in CandidateConstraints(problem);
      }
    }
  }

  lemma {:induction false} TranslatedMeans(puzzle: Puzzle, problem: Problem, codes: Codes)
    requires puzzle.WellFormed() && Carries(problem, puzzle) && Fits(problem, codes)
    requires Translated(problem).Ok?
    requires Complete(puzzle, Decode(puzzle, codes)) && CodesOf(puzzle, Decode(puzzle, codes)) == codes
    ensures (forall t :: t in Translated(problem).value ==> Satisfied(t, codes))
      <==> forall c :: c in problem.constraints ==> ConstraintHolds(puzzle, c, Decode(puzzle, codes))
  {
    forall c | c in problem.constraints
      ensures Translate(problem, c).Ok?
      ensures (forall t :: t in Translate(problem, c).value ==> Satisfied(t, codes))
        <==> ConstraintHolds(puzzle, c, Decode(puzzle, codes))
      ensures Translate(problem, c).value <= Translated(problem).value
    {
      TranslationMeans(puzzle, problem, c, codes);
    }
  }

  lemma {:induction false} AtomConstraintsMean(puzzle: Puzzle, problem: Problem, codes: Codes)
    requires puzzle.WellFormed() && Carries(problem, puzzle) && WellEncoded(problem) && Fits(problem, codes)
    ensures (forall c :: c in AtomConstraints(problem) ==> Satisfied(c, codes)) <==> forall atom ::
      atom in problem.asserted || atom in problem.assumptions ==> AtomHolds(atom, Decode(puzzle, codes))
  {
    forall atom | atom in problem.asserted || atom in problem.assumptions
      ensures Representable(atom, puzzle)
      ensures AtomConstraint(atom, problem) in AtomConstraints(problem)
      ensures Satisfied(AtomConstraint(atom, problem), codes) <==> AtomHolds(atom, Decode(puzzle, codes))
    {
      assert atom in problem.asserted + Elements(problem.assumptions) + {problem.counter};
      AtomConstraintMeans(puzzle, problem, atom, codes);
    }
  }

  /** The model says exactly what the problem means, although it tables only current candidates. */
  lemma {:induction false} ModelMeansBase(puzzle: Puzzle, state: PuzzleState, obligation: Obligation,
      problem: Problem, codes: Codes)
    requires puzzle.WellFormed() && Poses(problem, puzzle, state, obligation)
    requires Constraints(problem).Ok?
    requires codes.Keys == puzzle.variables.Keys && forall v :: v in codes ==> 0 <= codes[v] < |Ids(puzzle, v)|
    ensures Solves(codes, CpInput(Sizes(problem), Constraints(problem).value))
      <==> Base(puzzle, state, obligation, Decode(puzzle, codes))
  {
    hide Satisfied, Translate, Translated, AtomConstraints, CandidateConstraints, ConstraintHolds, Base, AtomHolds,
      Opposite, WellEncoded;
    var translated := Translated(problem).value;
    var a := Decode(puzzle, codes);
    DecodeCodes(puzzle, codes);
    CandidateConstraintsMean(problem, codes);
    if Fits(problem, codes) {
      TranslatedMeans(puzzle, problem, codes);
      AtomConstraintsMean(puzzle, problem, codes);
    }
    assert ReadsBack(puzzle, problem, a) ==> Fits(problem, codes);
    SplitConstraints(problem, codes);
  }

  lemma {:induction false} SplitConstraints(problem: Problem, codes: Codes)
    requires WellEncoded(problem) && Constraints(problem).Ok?
    ensures (forall c :: c in Constraints(problem).value ==> Satisfied(c, codes)) <==>
      && (forall c :: c in CandidateConstraints(problem) ==> Satisfied(c, codes))
      && (forall c :: c in Translated(problem).value ==> Satisfied(c, codes))
      && (forall c :: c in AtomConstraints(problem) ==> Satisfied(c, codes))
  {
  }

  lemma {:induction false} SolvableIffBase(puzzle: Puzzle, state: PuzzleState, obligation: Obligation, problem: Problem)
    requires puzzle.WellFormed() && Poses(problem, puzzle, state, obligation)
    requires Constraints(problem).Ok?
    ensures Solvable(CpInput(Sizes(problem), Constraints(problem).value))
      <==> exists a :: Base(puzzle, state, obligation, a)
  {
    var input := CpInput(Sizes(problem), Constraints(problem).value);
    if Solvable(input) {
      var codes :| Solves(codes, input);
      ModelMeansBase(puzzle, state, obligation, problem, codes);
    }
    if a :| Base(puzzle, state, obligation, a) {
      CodesDecode(puzzle, a);
      ModelMeansBase(puzzle, state, obligation, problem, CodesOf(puzzle, a));
    }
  }

  lemma {:induction false} CodesDecode(puzzle: Puzzle, a: Assignment)
    requires puzzle.WellFormed() && Complete(puzzle, a)
    ensures forall v :: v in CodesOf(puzzle, a) ==> 0 <= CodesOf(puzzle, a)[v] < |Ids(puzzle, v)|
    ensures Decode(puzzle, CodesOf(puzzle, a)) == a
  {
  }

  lemma {:induction false} AddOne(codes: Codes, sizes: map<VariableId, nat>, constraints: set<CpConstraint>,
      c: CpConstraint)
    ensures Solves(codes, CpInput(sizes, constraints + {c}))
      <==> Solves(codes, CpInput(sizes, constraints)) && Satisfied(c, codes)
  {
  }

  lemma {:induction false} CounterMeans(puzzle: Puzzle, state: PuzzleState, obligation: Obligation, problem: Problem,
      codes: Codes)
    requires puzzle.WellFormed() && Poses(problem, puzzle, state, obligation)
    requires Constraints(problem).Ok?
    requires codes.Keys == puzzle.variables.Keys && forall v :: v in codes ==> 0 <= codes[v] < |Ids(puzzle, v)|
    ensures Solves(codes, CpInput(Sizes(problem), Constraints(problem).value + {AtomConstraint(problem.counter, problem)}))
      <==> (Base(puzzle, state, obligation, Decode(puzzle, codes))
            && !AtomHolds(obligation.conclusion, Decode(puzzle, codes)))
  {
    hide Satisfied, Constraints, Base, ReadsBack, WellEncoded;
    AddOne(codes, Sizes(problem), Constraints(problem).value, AtomConstraint(problem.counter, problem));
    ModelMeansBase(puzzle, state, obligation, problem, codes);
    AtomConstraintMeans(puzzle, problem, problem.counter, codes);
    OppositeIsNegation(obligation.conclusion, Decode(puzzle, codes));
  }

  lemma {:induction false} SolvableIffCounterexample(puzzle: Puzzle, state: PuzzleState, obligation: Obligation,
      problem: Problem)
    requires puzzle.WellFormed() && Poses(problem, puzzle, state, obligation)
    requires Constraints(problem).Ok?
    ensures Solvable(CpInput(Sizes(problem), Constraints(problem).value + {AtomConstraint(problem.counter, problem)}))
      <==> exists a :: Base(puzzle, state, obligation, a) && !AtomHolds(obligation.conclusion, a)
  {
    var input := CpInput(Sizes(problem), Constraints(problem).value + {AtomConstraint(problem.counter, problem)});
    if Solvable(input) {
      var codes :| Solves(codes, input);
      CounterMeans(puzzle, state, obligation, problem, codes);
    }
    if a :| Base(puzzle, state, obligation, a) && !AtomHolds(obligation.conclusion, a) {
      CodesDecode(puzzle, a);
      CounterMeans(puzzle, state, obligation, problem, CodesOf(puzzle, a));
    }
  }

  lemma {:induction false} AnswersMean(solver: CpSolver, problem: Problem)
    requires WellEncoded(problem) && Truthful(solver)
    requires Check(solver, problem).SatResult? || Check(solver, problem).UnsatResult?
    ensures Constraints(problem).Ok? && Solvable(CpInput(Sizes(problem), Constraints(problem).value))
    ensures Check(solver, problem).SatResult? <==>
      Solvable(CpInput(Sizes(problem), Constraints(problem).value + {AtomConstraint(problem.counter, problem)}))
  {
  }

  /** The truth-table backend is as good as its solver: definite answers are right about the puzzle. */
  lemma {:induction false} VerifyIsTruthful(solver: CpSolver, puzzle: Puzzle, state: PuzzleState,
      obligation: Obligation)
    requires puzzle.WellFormed() && Truthful(solver)
    ensures TruthfulAnswer(Verify(solver, puzzle, state, obligation), puzzle, state, obligation)
  {
    var result := Verify(solver, puzzle, state, obligation);
    if result.SatResult? || result.UnsatResult? {
      var problem := Prepare(puzzle, state, obligation).value;
      PreparedPoses(puzzle, state, obligation);
      AnswersMean(solver, problem);
      SolvableIffBase(puzzle, state, obligation, problem);
      SolvableIffCounterexample(puzzle, state, obligation, problem);
    }
  }

  /** A solver that never gives up confirms every claim that has no counterexample. */
  lemma {:induction false} DecisiveConfirms(solver: CpSolver, problem: Problem)
    requires WellEncoded(problem) && Truthful(solver) && forall input :: solver(input) != UnknownStatus
    requires Constraints(problem).Ok? && Solvable(CpInput(Sizes(problem), Constraints(problem).value))
    requires !Solvable(CpInput(Sizes(problem), Constraints(problem).value + {AtomConstraint(problem.counter, problem)}))
    ensures Check(solver, problem) == UnsatResult
  {
    hide Constraints, AtomConstraint, Solvable, WellEncoded;
  }

  // ----- a solver that tells the truth -----

  function UpTo(n: nat): (r: seq<int>)
    ensures |r| == n && forall i :: 0 <= i < n ==> r[i] == i
  {
    seq(n, i => i)
  }

  /** The full code range of each listed variable. */
  function Ranges(columns: seq<VariableId>, sizes: map<VariableId, nat>): (r: seq<seq<int>>)
    ensures |r| == |columns|
    ensures forall i :: 0 <= i < |columns| && columns[i] in sizes ==> r[i] == UpTo(sizes[columns[i]])
  {
    seq(|columns|, i requires 0 <= i < |columns| =>
      if columns[i] in sizes then UpTo(sizes[columns[i]]) else [])
  }

  /** Exhaustive enumeration: small, slow and always right. */
  function Enumerate(input: CpInput): CpStatus {
    var columns := Ascending(input.sizes.Keys);
    if exists row :: row in Product(Ranges(columns, input.sizes)) && |row| == |columns|
                     && Solves(Zip(columns, row), input)
    then Feasible else Infeasible
  }

  /** So the truthfulness assumed of the table solver can be met. */
  lemma {:induction false} EnumerationIsTruthful()
    ensures Truthful(Enumerate)
  {
    forall input ensures Enumerate(input) == Feasible <==> Solvable(input) {
      if codes :| Solves(codes, input) {
        EnumerationFinds(codes, input);
      }
    }
  }

  lemma {:induction false} RowInRanges(columns: seq<VariableId>, codes: Codes, sizes: map<VariableId, nat>)
    requires forall i :: 0 <= i < |columns| ==> columns[i] in codes && columns[i] in sizes
    requires forall i :: 0 <= i < |columns| ==> 0 <= codes[columns[i]] < sizes[columns[i]]
    ensures RowOf(columns, codes) in Product(Ranges(columns, sizes))
  {
    var row, domains := RowOf(columns, codes), Ranges(columns, sizes);
    forall i | 0 <= i < |row| ensures row[i] in domains[i] {
      assert domains[i][row[i]] == row[i];
    }
    ProductMember(domains, row);
  }

  lemma {:induction false} EnumerationFinds(codes: Codes, input: CpInput)
    requires Solves(codes, input)
    ensures Enumerate(input) == Feasible
  {
    var columns := Ascending(input.sizes.Keys);
    forall i | 0 <= i < |columns|
      ensures columns[i] in codes && columns[i] in input.sizes
      ensures 0 <= codes[columns[i]] < input.sizes[columns[i]]
    {
      var v := columns[i];
      assert v in columns;
    }
    RowInRanges(columns, codes, input.sizes);
    ZipRow(columns, codes);
    assert Restrict(codes, Elements(columns)) == codes;
  }

  // ----- which answer is given -----

  /** The obligation is prepared and every active clue can be tabulated. */
  ghost predicate Encodable(puzzle: Puzzle, state: PuzzleState, obligation: Obligation)
    requires puzzle.WellFormed()
  {
    Prepare(puzzle, state, obligation).Ok? &&
    (PreparedIsWellEncoded(puzzle, state, obligation);
     Constraints(Prepare(puzzle, state, obligation).value).Ok?)
  }

  /** With a solver that never gives up, the answer is decided by the puzzle alone: a source without
      solutions, or one that cannot be tabulated, is refused; otherwise a counterexample decides. */
  lemma {:induction false} DecisiveAnswer(solver: CpSolver, puzzle: Puzzle, state: PuzzleState, obligation: Obligation)
    requires puzzle.WellFormed() && Truthful(solver) && forall input :: solver(input) != UnknownStatus
    ensures Verify(solver, puzzle, state, obligation) ==
      if !Encodable(puzzle, state, obligation) || !(exists a :: Base(puzzle, state, obligation, a)) then InvalidResult
      else if exists a :: Base(puzzle, state, obligation, a) && !AtomHolds(obligation.conclusion, a) then SatResult
      else UnsatResult
  {
    hide AtomConstraint, Solvable, WellEncoded, Base, AtomHolds, Constraints;
    if Encodable(puzzle, state, obligation) {
      var problem := Prepare(puzzle, state, obligation).value;
      PreparedPoses(puzzle, state, obligation);
      SolvableIffBase(puzzle, state, obligation, problem);
      SolvableIffCounterexample(puzzle, state, obligation, problem);
    }
  }

  /** The answer is open exactly when the solver gave up on the source, or did not find it infeasible and
      gave up on the negated claim. */
  lemma {:induction false} OpenAnswer(solver: CpSolver, puzzle: Puzzle, state: PuzzleState, obligation: Obligation)
    requires puzzle.WellFormed()
    ensures Verify(solver, puzzle, state, obligation).UnknownResult? <==>
      && Encodable(puzzle, state, obligation)
      && (PreparedIsWellEncoded(puzzle, state, obligation);
          var problem := Prepare(puzzle, state, obligation).value;
          var base := Constraints(problem).value;
          || solver(CpInput(Sizes(problem), base)) == UnknownStatus
          || (solver(CpInput(Sizes(problem), base)) != Infeasible
              && solver(CpInput(Sizes(problem), base + {AtomConstraint(problem.counter, problem)})) == UnknownStatus))
  {
    hide AtomConstraint, WellEncoded, Constraints;
  }
}

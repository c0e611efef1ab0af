/** Puzzle specifications: atoms, expression trees, constraints and their references. */
module Domain {
  import opened Prelude

  /** Normalized facts. Relation, aggregate and truth atoms share one opaque constructor. */
  datatype Atom =
    | AssignmentAtom(variable: VariableId, value: ValueId)
    | ExclusionAtom(variable: VariableId, value: ValueId)
    | OtherAtom(content: Identifier)

  /** An exact number: a Python `int` or a `Fraction`. */
  datatype Number = Integer(n: int) | Fraction(q: real) {
    function AsReal(): real {
      if Integer? then n as real else q
    }
  }

  /** The value of a `Constant` node, which may also be a Boolean. */
  datatype ConstantValue = Exact(number: Number) | Truth(b: bool)

  datatype Relation =
    | Equal | NotEqual | LessThan | LessThanOrEqual | GreaterThan | GreaterThanOrEqual

  datatype NumericExpression =
    | Constant(constant: ConstantValue)
    | VariableReference(variable: VariableId)
    | Add(operands: seq<NumericExpression>)
    | Multiply(operands: seq<NumericExpression>)
    | Subtract(left: NumericExpression, right: NumericExpression)
    | ExactDivide(dividend: NumericExpression, divisor: NumericExpression)
    | Modulo(dividend: NumericExpression, divisor: NumericExpression)
    | Negate(operand: NumericExpression)

  datatype BooleanExpression =
    | Comparison(relation: Relation, left: NumericExpression, right: NumericExpression)
    | And(operands: seq<BooleanExpression>)
    | Or(operands: seq<BooleanExpression>)
    | Not(operand: BooleanExpression)
    | Xor(first: BooleanExpression, second: BooleanExpression)
    | Implies(premise: BooleanExpression, conclusion: BooleanExpression)
    | Equivalent(first: BooleanExpression, second: BooleanExpression)
    | Cardinality(operands: seq<BooleanExpression>, minimum: int, maximum: int)
    | AllDifferent(terms: seq<NumericExpression>)

  predicate Compare(relation: Relation, left: int, right: int) {
    match relation
    case Equal => left == right
    case NotEqual => left != right
    case LessThan => left < right
    case LessThanOrEqual => left <= right
    case GreaterThan => left > right
    case GreaterThanOrEqual => left >= right
  }

  predicate CompareReal(relation: Relation, left: real, right: real) {
    match relation
    case Equal => left == right
    case NotEqual => left != right
    case LessThan => left < right
    case LessThanOrEqual => left <= right
    case GreaterThan => left > right
    case GreaterThanOrEqual => left >= right
  }

  /** The constraint catalogue; every kind the encoders refuse is `OtherConstraint`. */
  datatype Constraint =
    | DomainConstraint(id: ConstraintId, variable: VariableId, allowed: seq<ValueId>)
    | AllDifferentConstraint(id: ConstraintId, variables: seq<VariableId>)
    | ArithmeticConstraint(id: ConstraintId, expression: BooleanExpression)
    | OtherConstraint(id: ConstraintId)

  datatype DomainValue = DomainValue(id: ValueId, ordinal: Option<int>, numeric: Option<Number>)

  const LOGIC_GRID_FAMILY: Identifier := 1
  const LOGIC_EQUATIONS_FAMILY: Identifier := 2

  /** One puzzle revision. Variables and domains are keyed by their unique identifiers. */
  datatype Puzzle = Puzzle(
    revision: Identifier,
    family: Identifier,
    domains: map<DomainId, seq<DomainValue>>,
    variables: map<VariableId, DomainId>,
    constraints: seq<Constraint>,
    givens: seq<Atom>)
  {
    /** What the specification validator demands of references and identifiers. */
    predicate WellFormed() {
      && (forall v :: v in variables ==> variables[v] in domains)
      && (forall d :: d in domains ==> |domains[d]| > 0 && NoDuplicates(ValueIds(domains[d])))
      && (forall i, j :: 0 <= i < j < |constraints| ==> constraints[i].id != constraints[j].id)
    }

    function ValuesOf(v: VariableId): seq<DomainValue>
      requires v in variables && variables[v] in domains
    {
      domains[variables[v]]
    }
  }

  function ValueIds(values: seq<DomainValue>): (ids: seq<ValueId>)
    ensures |ids| == |values|
    ensures forall i :: 0 <= i < |values| ==> ids[i] == values[i].id
  {
    seq(|values|, i requires 0 <= i < |values| => values[i].id)
  }

  function NumericOf(values: seq<DomainValue>): (r: seq<Option<Number>>)
    ensures |r| == |values|
    ensures forall i :: 0 <= i < |values| ==> r[i] == values[i].numeric
  {
    seq(|values|, i requires 0 <= i < |values| => values[i].numeric)
  }

  /** The declared numbers of each variable, indexed by value code. */
  type NumberTable = map<VariableId, seq<Option<Number>>>

  predicate AllIntegers(numbers: seq<Option<Number>>) {
    forall i :: 0 <= i < |numbers| ==> numbers[i].Some? && numbers[i].value.Integer?
  }

  function IntegerAt(numbers: seq<Option<Number>>, code: int): int
    requires AllIntegers(numbers) && 0 <= code < |numbers|
  {
    numbers[code].value.n
  }

  predicate AllRationals(numbers: seq<Option<Number>>) {
    forall i :: 0 <= i < |numbers| ==> numbers[i].Some?
  }

  /** A complete choice of one value per variable. */
  type Assignment = map<VariableId, ValueId>

  /** Truth of an atom under a complete assignment; opaque atoms are never relied on. */
  predicate AtomHolds(atom: Atom, a: Assignment) {
    match atom
    case AssignmentAtom(v, x) => v in a && a[v] == x
    case ExclusionAtom(v, x) => v in a && a[v] != x
    case OtherAtom(_) => false
  }

  /** Variables named by a numeric expression, operand lists included. */
  function NumericVariables(e: NumericExpression): set<VariableId>
    decreases e, 0
  {
    match e
    case Constant(_) => {}
    case VariableReference(v) => {v}
    case Add(operands) => NumericVariablesOfAll(operands)
    case Multiply(operands) => NumericVariablesOfAll(operands)
    case Subtract(left, right) => NumericVariables(left) + NumericVariables(right)
    case ExactDivide(dividend, divisor) => NumericVariables(dividend) + NumericVariables(divisor)
    case Modulo(dividend, divisor) => NumericVariables(dividend) + NumericVariables(divisor)
    case Negate(operand) => NumericVariables(operand)
  }

  function NumericVariablesOfAll(es: seq<NumericExpression>): set<VariableId>
    decreases es, 1
  {
    if es == [] then {} else NumericVariables(es[0]) + NumericVariablesOfAll(es[1..])
  }

  /** Variables named by a Boolean expression. */
  function BooleanVariables(e: BooleanExpression): set<VariableId>
    decreases e, 0
  {
    match e
    case Comparison(_, left, right) => NumericVariables(left) + NumericVariables(right)
    case And(operands) => BooleanVariablesOfAll(operands)
    case Or(operands) => BooleanVariablesOfAll(operands)
    case Cardinality(operands, _, _) => BooleanVariablesOfAll(operands)
    case Not(operand) => BooleanVariables(operand)
    case Xor(first, second) => BooleanVariables(first) + BooleanVariables(second)
    case Equivalent(first, second) => BooleanVariables(first) + BooleanVariables(second)
    case Implies(premise, conclusion) => BooleanVariables(premise) + BooleanVariables(conclusion)
    case AllDifferent(terms) => NumericVariablesOfAll(terms)
  }

  function BooleanVariablesOfAll(es: seq<BooleanExpression>): set<VariableId>
    decreases es, 1
  {
    if es == [] then {} else BooleanVariables(es[0]) + BooleanVariablesOfAll(es[1..])
  }
}

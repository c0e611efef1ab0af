/** Direct evaluation of Logic Equations expressions over Python integers. */
module Equations {
  import opened Prelude
  import opened Domain

  // ----- Python's divmod: the quotient is floored, the remainder takes the divisor's sign -----

  function FloorDiv(n: int, d: int): int
    requires d != 0
  {
    if d > 0 then n / d else (-n) / (-d)
  }

  function FloorMod(n: int, d: int): int
    requires d != 0
  {
    if d > 0 then n % d else -((-n) % (-d))
  }

  /** The defining property of `divmod`, which fixes both results. */
  lemma {:induction false} FloorDivModSpec(n: int, d: int)
    requires d != 0
    ensures FloorDiv(n, d) * d + FloorMod(n, d) == n
    ensures d > 0 ==> 0 <= FloorMod(n, d) < d
    ensures d < 0 ==> d < FloorMod(n, d) <= 0
  {
    if d < 0 {
      var q, e := (-n) / (-d), -d;
      assert -n == q * e + (-n) % e;
      assert q * e == -(q * d);
    }
  }

  /** Floored and Euclidean division part ways on inexact negative divisors only: both agree on
      which divisions are exact, and on the quotient then. */
  lemma {:induction false} ExactDivisionAgrees(n: int, d: int)
    requires d != 0
    ensures FloorMod(n, d) == 0 <==> n % d == 0
    ensures n % d == 0 ==> FloorDiv(n, d) == n / d
  {
    if d < 0 {
      FloorDivModSpec(n, d);
      var q, r, e := n / d, n % d, -d;
      assert n == q * d + r;
      assert q * d == -(q * e) && (-q) * e == -(q * e);
      if r == 0 {
        assert n == -(q * e);
        MultipleDivides(q, e);
      }
      if FloorMod(n, d) == 0 {
        var f := FloorDiv(n, d);
        assert n == f * d;
        EuclideanMultiple(f, d);
      }
    }
  }

  lemma {:induction false} ProductGrows(k: int, e: int)
    requires e > 0
    ensures k >= 1 ==> k * e >= e
    ensures k <= -1 ==> k * e <= -e
  {
  }

  lemma {:induction false} MultipleDivides(q: int, e: int)
    requires e > 0
    ensures (q * e) / e == q && (q * e) % e == 0
  {
    var p := q * e;
    assert p == (p / e) * e + p % e;
    assert (p / e - q) * e == -(p % e);
    ProductGrows(p / e - q, e);
  }

  lemma {:induction false} EuclideanMultiple(f: int, d: int)
    requires d < 0
    ensures (f * d) % d == 0
  {
    var p := f * d;
    assert p == (p / d) * d + p % d;
    assert (f - p / d) * (-d) == -(p % d);
    ProductGrows(f - p / d, -d);
  }

  // ----- evaluation -----

  datatype Outcome = Invalid | Value(n: int)

  /** The two evaluators in the code: the truth-table one refuses non-positive moduli, the one
      shared by the final checker and the human rules refuses only zero. */
  datatype Dialect = TableDialect | CheckerDialect

  type IntegerEnvironment = map<VariableId, int>

  function Evaluate(d: Dialect, e: NumericExpression, env: IntegerEnvironment): Outcome
    requires NumericVariables(e) <= env.Keys
    decreases e, 0
  {
    match e
    case Constant(c) =>
      if c.Exact? && c.number.Integer? then Value(c.number.n) else Invalid
    case VariableReference(v) => Value(env[v])
    case Add(operands) => EvaluateSum(d, operands, env)
    case Multiply(operands) => EvaluateProduct(d, operands, env)
    case Subtract(left, right) =>
      (match (Evaluate(d, left, env), Evaluate(d, right, env))
       case (Value(l), Value(r)) => Value(l - r)
       case _ => Invalid)
    case ExactDivide(dividend, divisor) =>
      (match (Evaluate(d, dividend, env), Evaluate(d, divisor, env))
       case (Value(n), Value(m)) =>
         if m != 0 && FloorMod(n, m) == 0 then Value(FloorDiv(n, m)) else Invalid
       case _ => Invalid)
    case Modulo(dividend, divisor) =>
      (match (Evaluate(d, dividend, env), Evaluate(d, divisor, env))
       case (Value(n), Value(m)) =>
         if m == 0 || (d.TableDialect? && m < 0) then Invalid else Value(FloorMod(n, m))
       case _ => Invalid)
    case Negate(operand) =>
      (match Evaluate(d, operand, env)
       case Value(n) => Value(-n)
       case Invalid => Invalid)
  }

  function EvaluateSum(d: Dialect, es: seq<NumericExpression>, env: IntegerEnvironment): Outcome
    requires NumericVariablesOfAll(es) <= env.Keys
    decreases es, 1
  {
    if es == [] then Value(0)
    else
      match (Evaluate(d, es[0], env), EvaluateSum(d, es[1..], env))
      case (Value(n), Value(m)) => Value(n + m)
      case _ => Invalid
  }

  function EvaluateProduct(d: Dialect, es: seq<NumericExpression>, env: IntegerEnvironment): Outcome
    requires NumericVariablesOfAll(es) <= env.Keys
    decreases es, 1
  {
    if es == [] then Value(1)
    else
      match (Evaluate(d, es[0], env), EvaluateProduct(d, es[1..], env))
      case (Value(n), Value(m)) => Value(n * m)
      case _ => Invalid
  }

  /** The Boolean kinds Logic Equations accepts; the others are refused before evaluation. */
  predicate Supported(e: BooleanExpression) {
    match e
    case Comparison(_, _, _) => true
    case And(operands) => forall o :: o in operands ==> Supported(o)
    case Or(operands) => forall o :: o in operands ==> Supported(o)
    case Not(operand) => Supported(operand)
    case Implies(premise, conclusion) => Supported(premise) && Supported(conclusion)
    case Xor(_, _) => false
    case Equivalent(_, _) => false
    case Cardinality(_, _, _) => false
    case AllDifferent(_) => false
  }

  /** A comparison with an undefined side is false. */
  predicate Holds(d: Dialect, e: BooleanExpression, env: IntegerEnvironment)
    requires BooleanVariables(e) <= env.Keys
    decreases e, 0
  {
    match e
    case Comparison(relation, left, right) =>
      (match (Evaluate(d, left, env), Evaluate(d, right, env))
       case (Value(l), Value(r)) => Compare(relation, l, r)
       case _ => false)
    case And(operands) => AllHold(d, operands, env)
    case Or(operands) => AnyHolds(d, operands, env)
    case Not(operand) => !Holds(d, operand, env)
    case Implies(premise, conclusion) => !Holds(d, premise, env) || Holds(d, conclusion, env)
    case Xor(_, _) => false
    case Equivalent(_, _) => false
    case Cardinality(_, _, _) => false
    case AllDifferent(_) => false
  }

  predicate AllHold(d: Dialect, es: seq<BooleanExpression>, env: IntegerEnvironment)
    requires BooleanVariablesOfAll(es) <= env.Keys
    decreases es, 1
  {
    es == [] || (Holds(d, es[0], env) && AllHold(d, es[1..], env))
  }

  predicate AnyHolds(d: Dialect, es: seq<BooleanExpression>, env: IntegerEnvironment)
    requires BooleanVariablesOfAll(es) <= env.Keys
    decreases es, 1
  {
    es != [] && (Holds(d, es[0], env) || AnyHolds(d, es[1..], env))
  }
}

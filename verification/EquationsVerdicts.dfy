/** Where the final checker and the truth table judge a Logic Equations clue alike. */
module EquationsVerdicts {
  import opened Prelude
  import opened Domain
  import opened Equations

  // ----- where the two evaluators agree -----

  /** Some `Modulo` node sees a negative divisor when its operands are evaluated. */
  predicate MeetsNegativeModulus(e: NumericExpression, env: IntegerEnvironment)
    requires NumericVariables(e) <= env.Keys
    decreases e, 0
  {
    match e
    case Constant(_) => false
    case VariableReference(_) => false
    case Add(operands) => AnyMeetsNegativeModulus(operands, env)
    case Multiply(operands) => AnyMeetsNegativeModulus(operands, env)
    case Subtract(left, right) =>
      MeetsNegativeModulus(left, env) || MeetsNegativeModulus(right, env)
    case ExactDivide(dividend, divisor) =>
      MeetsNegativeModulus(dividend, env) || MeetsNegativeModulus(divisor, env)
    case Modulo(dividend, divisor) =>
      || MeetsNegativeModulus(dividend, env) || MeetsNegativeModulus(divisor, env)
      || (var m := Evaluate(CheckerDialect, divisor, env); m.Value? && m.n < 0)
    case Negate(operand) => MeetsNegativeModulus(operand, env)
  }

  predicate AnyMeetsNegativeModulus(es: seq<NumericExpression>, env: IntegerEnvironment)
    requires NumericVariablesOfAll(es) <= env.Keys
    decreases es, 1
  {
    es != [] && (MeetsNegativeModulus(es[0], env) || AnyMeetsNegativeModulus(es[1..], env))
  }

  /** The table evaluator is the checker's with negative moduli made undefined: it gives the same
      result unless the checker computes a value and some modulus on the way was negative. */
  lemma {:induction false} EvaluatorsDiffer(e: NumericExpression, env: IntegerEnvironment)
    requires NumericVariables(e) <= env.Keys
    ensures var checked := Evaluate(CheckerDialect, e, env);
      Evaluate(TableDialect, e, env)
        == if checked.Value? && MeetsNegativeModulus(e, env) then Invalid else checked
    decreases e, 0
  {
    match e
    case Constant(_) =>
    case VariableReference(_) =>
    case Add(operands) => EvaluatorsDifferOnAll(operands, env);
    case Multiply(operands) => EvaluatorsDifferOnAll(operands, env);
    case Subtract(left, right) => EvaluatorsDiffer(left, env); EvaluatorsDiffer(right, env);
    case ExactDivide(dividend, divisor) =>
      EvaluatorsDiffer(dividend, env); EvaluatorsDiffer(divisor, env);
    case Modulo(dividend, divisor) =>
      EvaluatorsDiffer(dividend, env); EvaluatorsDiffer(divisor, env);
    case Negate(operand) => EvaluatorsDiffer(operand, env);
  }

  lemma {:induction false} EvaluatorsDifferOnAll(es: seq<NumericExpression>, env: IntegerEnvironment)
    requires NumericVariablesOfAll(es) <= env.Keys
    ensures var checked := EvaluateSum(CheckerDialect, es, env);
      EvaluateSum(TableDialect, es, env)
        == if checked.Value? && AnyMeetsNegativeModulus(es, env) then Invalid else checked
    ensures var checked := EvaluateProduct(CheckerDialect, es, env);
      EvaluateProduct(TableDialect, es, env)
        == if checked.Value? && AnyMeetsNegativeModulus(es, env) then Invalid else checked
    ensures EvaluateSum(CheckerDialect, es, env).Value? <==> EvaluateProduct(CheckerDialect, es, env).Value?
    decreases es, 1
  {
    if es != [] {
      EvaluatorsDiffer(es[0], env);
      EvaluatorsDifferOnAll(es[1..], env);
    }
  }

  /** A negative modulus is met on the way to a pair of numbers that the checker goes on to compare. */
  predicate NegativeModulusMatters(left: NumericExpression, right: NumericExpression, env: IntegerEnvironment)
    requires NumericVariables(left) + NumericVariables(right) <= env.Keys
  {
    && (MeetsNegativeModulus(left, env) || MeetsNegativeModulus(right, env))
    && Evaluate(CheckerDialect, left, env).Value? && Evaluate(CheckerDialect, right, env).Value?
  }

  predicate SameVerdict(e: BooleanExpression, env: IntegerEnvironment)
    requires BooleanVariables(e) <= env.Keys
  {
    Holds(TableDialect, e, env) <==> Holds(CheckerDialect, e, env)
  }

  /** For a given relation the verdicts agree unless a negative modulus matters and the numbers are related. */
  lemma {:induction false} RelatedVerdictsAgreeIff(r: Relation, left: NumericExpression, right: NumericExpression,
                                                   env: IntegerEnvironment)
    requires NumericVariables(left) + NumericVariables(right) <= env.Keys
    ensures SameVerdict(Comparison(r, left, right), env) <==>
      !(NegativeModulusMatters(left, right, env)
        && Compare(r, Evaluate(CheckerDialect, left, env).n, Evaluate(CheckerDialect, right, env).n))
  {
    hide Evaluate, MeetsNegativeModulus, Compare;
    EvaluatorsDiffer(left, env);
    EvaluatorsDiffer(right, env);
  }

  /** A comparison gets the same verdict from both evaluators whatever its relation if and only if no
      negative modulus matters. */
  lemma {:induction false} ComparisonVerdictsAgreeIff(left: NumericExpression, right: NumericExpression,
                                                      env: IntegerEnvironment)
    requires NumericVariables(left) + NumericVariables(right) <= env.Keys
    ensures (forall r: Relation :: SameVerdict(Comparison(r, left, right), env)) <==>
      !NegativeModulusMatters(left, right, env)
  {
    hide Evaluate, MeetsNegativeModulus, SameVerdict;
    forall r: Relation
      ensures SameVerdict(Comparison(r, left, right), env) <==>
        !(NegativeModulusMatters(left, right, env)
          && Compare(r, Evaluate(CheckerDialect, left, env).n, Evaluate(CheckerDialect, right, env).n))
    {
      RelatedVerdictsAgreeIff(r, left, right, env);
    }
    if NegativeModulusMatters(left, right, env) {
      var x, y := Evaluate(CheckerDialect, left, env).n, Evaluate(CheckerDialect, right, env).n;
      var related := if x == y then Equal else NotEqual;
      assert Compare(related, x, y);
      assert !SameVerdict(Comparison(related, left, right), env);
    }
  }

  // ----- whole clues -----

  /** The clue with every comparison that a negative modulus reaches replaced by a false one. */
  function Withheld(e: BooleanExpression, env: IntegerEnvironment): (r: BooleanExpression)
    requires BooleanVariables(e) <= env.Keys
    ensures BooleanVariables(r) <= BooleanVariables(e)
    decreases e, 0
  {
    match e
    case Comparison(_, left, right) =>
      if MeetsNegativeModulus(left, env) || MeetsNegativeModulus(right, env) then Or([]) else e
    case And(operands) => And(AllWithheld(operands, env))
    case Or(operands) => Or(AllWithheld(operands, env))
    case Not(operand) => Not(Withheld(operand, env))
    case Implies(premise, conclusion) => Implies(Withheld(premise, env), Withheld(conclusion, env))
    case Xor(_, _) => e
    case Equivalent(_, _) => e
    case Cardinality(_, _, _) => e
    case AllDifferent(_) => e
  }

  function AllWithheld(es: seq<BooleanExpression>, env: IntegerEnvironment): (r: seq<BooleanExpression>)
    requires BooleanVariablesOfAll(es) <= env.Keys
    ensures |r| == |es| && BooleanVariablesOfAll(r) <= BooleanVariablesOfAll(es)
    decreases es, 1
  {
    if es == [] then [] else [Withheld(es[0], env)] + AllWithheld(es[1..], env)
  }

  /** The truth table's verdict on any clue is the checker's verdict on the withheld clue. */
  lemma {:induction false} TableWithholds(e: BooleanExpression, env: IntegerEnvironment)
    requires BooleanVariables(e) <= env.Keys
    ensures Holds(TableDialect, e, env) <==> Holds(CheckerDialect, Withheld(e, env), env)
    decreases e, 0
  {
    match e
    case Comparison(_, left, right) =>
      EvaluatorsDiffer(left, env);
      EvaluatorsDiffer(right, env);
    case And(operands) => TableWithholdsAll(operands, env);
    case Or(operands) => TableWithholdsAll(operands, env);
    case Not(operand) => TableWithholds(operand, env);
    case Implies(premise, conclusion) => TableWithholds(premise, env); TableWithholds(conclusion, env);
    case Xor(_, _) =>
    case Equivalent(_, _) =>
    case Cardinality(_, _, _) =>
    case AllDifferent(_) =>
  }

  lemma {:induction false} TableWithholdsAll(es: seq<BooleanExpression>, env: IntegerEnvironment)
    requires BooleanVariablesOfAll(es) <= env.Keys
    ensures AllHold(TableDialect, es, env) <==> AllHold(CheckerDialect, AllWithheld(es, env), env)
    ensures AnyHolds(TableDialect, es, env) <==> AnyHolds(CheckerDialect, AllWithheld(es, env), env)
    decreases es, 1
  {
    if es != [] {
      TableWithholds(es[0], env);
      TableWithholdsAll(es[1..], env);
    }
  }

  /** Truth table and checker give a clue the same verdict if and only if withholding the comparisons a
      negative modulus reaches does not change the checker's mind. */
  lemma {:induction false} VerdictsAgreeIff(e: BooleanExpression, env: IntegerEnvironment)
    requires BooleanVariables(e) <= env.Keys
    ensures SameVerdict(e, env) <==>
      (Holds(CheckerDialect, Withheld(e, env), env) <==> Holds(CheckerDialect, e, env))
  {
    TableWithholds(e, env);
  }

  /** No comparison inside the expression meets a negative modulus. */
  predicate ModuliNonNegative(e: BooleanExpression, env: IntegerEnvironment)
    requires BooleanVariables(e) <= env.Keys
    decreases e, 0
  {
    match e
    case Comparison(_, left, right) =>
      !MeetsNegativeModulus(left, env) && !MeetsNegativeModulus(right, env)
    case And(operands) => AllModuliNonNegative(operands, env)
    case Or(operands) => AllModuliNonNegative(operands, env)
    case Not(operand) => ModuliNonNegative(operand, env)
    case Implies(premise, conclusion) =>
      ModuliNonNegative(premise, env) && ModuliNonNegative(conclusion, env)
    case Xor(_, _) => true
    case Equivalent(_, _) => true
    case Cardinality(_, _, _) => true
    case AllDifferent(_) => true
  }

  predicate AllModuliNonNegative(es: seq<BooleanExpression>, env: IntegerEnvironment)
    requires BooleanVariablesOfAll(es) <= env.Keys
    decreases es, 1
  {
    es == [] || (ModuliNonNegative(es[0], env) && AllModuliNonNegative(es[1..], env))
  }

  /** Nothing is withheld exactly where no negative modulus is met. */
  lemma {:induction false} NothingWithheld(e: BooleanExpression, env: IntegerEnvironment)
    requires BooleanVariables(e) <= env.Keys
    ensures Withheld(e, env) == e <==> ModuliNonNegative(e, env)
    decreases e, 0
  {
    match e
    case Comparison(_, _, _) =>
    case And(operands) => NothingWithheldFromAll(operands, env);
    case Or(operands) => NothingWithheldFromAll(operands, env);
    case Not(operand) => NothingWithheld(operand, env);
    case Implies(premise, conclusion) => NothingWithheld(premise, env); NothingWithheld(conclusion, env);
    case Xor(_, _) =>
    case Equivalent(_, _) =>
    case Cardinality(_, _, _) =>
    case AllDifferent(_) =>
  }

  lemma {:induction false} NothingWithheldFromAll(es: seq<BooleanExpression>, env: IntegerEnvironment)
    requires BooleanVariablesOfAll(es) <= env.Keys
    ensures AllWithheld(es, env) == es <==> AllModuliNonNegative(es, env)
    decreases es, 1
  {
    if es != [] {
      NothingWithheld(es[0], env);
      NothingWithheldFromAll(es[1..], env);
      var kept := AllWithheld(es, env);
      assert kept[0] == Withheld(es[0], env) && kept[1..] == AllWithheld(es[1..], env);
      assert es == [es[0]] + es[1..];
    }
  }

  lemma {:induction false} VerdictsAgree(e: BooleanExpression, env: IntegerEnvironment)
    requires BooleanVariables(e) <= env.Keys
    requires ModuliNonNegative(e, env)
    ensures SameVerdict(e, env)
  {
    NothingWithheld(e, env);
    VerdictsAgreeIff(e, env);
  }

  /** The evaluators do disagree: for every negative constant divisor and every value of a variable,
      the clue naming the floored remainder satisfies the checker but not the truth table. */
  lemma {:induction false} NegativeModulusSplits(v: VariableId, d: int, env: IntegerEnvironment)
    requires v in env && d < 0
    ensures var e := ModulusClue(v, d, FloorMod(env[v], d));
      && BooleanVariables(e) <= env.Keys
      && Holds(CheckerDialect, e, env) && !Holds(TableDialect, e, env)
  {
    var left := Modulo(VariableReference(v), Constant(Exact(Integer(d))));
    assert NumericVariables(left) == {v};
    assert Evaluate(CheckerDialect, left, env) == Value(FloorMod(env[v], d));
    assert Evaluate(TableDialect, left, env) == Invalid;
  }

  /** `v % d == r` */
  function ModulusClue(v: VariableId, d: int, r: int): BooleanExpression {
    Comparison(Equal, Modulo(VariableReference(v), Constant(Exact(Integer(d)))),
               Constant(Exact(Integer(r))))
  }

  /** The concrete case `x % -2 == -1` at x = 1. */
  lemma {:induction false} VerdictsCanDiffer(env: IntegerEnvironment)
    requires env == map[0 := 1]
    ensures var e := ModulusClue(0, -2, -1);
      && BooleanVariables(e) <= env.Keys
      && Holds(CheckerDialect, e, env) && !Holds(TableDialect, e, env)
  {
    NegativeModulusSplits(0, -2, env);
    assert FloorMod(1, -2) == -1;
  }
}

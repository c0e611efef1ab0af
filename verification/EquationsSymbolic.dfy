/** The symbolic encoder for Logic Equations: terms paired with validity conditions. */
module EquationsSymbolic {
  import opened Prelude
  import opened Domain
  import opened Equations
  import S = Smt

  /** An encoded number: its term, and the formula saying the number is defined. */
  datatype Encoded = Encoded(term: S.IntTerm, valid: S.Formula)

  /** The term of a variable: the sum over its codes of `ite (v = code) value 0`. */
  function CodeTerms(v: VariableId, numbers: seq<Option<Number>>, start: nat): seq<S.IntTerm>
    requires AllIntegers(numbers)
    requires start <= |numbers|
    decreases |numbers| - start
  {
    if start == |numbers| then []
    else [S.IfCode(v, start, numbers[start].value.n)] + CodeTerms(v, numbers, start + 1)
  }

  lemma {:induction false} CodeTermsSelect(v: VariableId, numbers: seq<Option<Number>>, start: nat, m: S.Model)
    requires AllIntegers(numbers) && start <= |numbers|
    ensures S.SumOf(CodeTerms(v, numbers, start), m)
      == if start <= m.Code(v) < |numbers| then numbers[m.Code(v)].value.n else 0
    decreases |numbers| - start
  {
    if start < |numbers| {
      CodeTermsSelect(v, numbers, start + 1, m);
      var rest := CodeTerms(v, numbers, start + 1);
      var head := S.IfCode(v, start, numbers[start].value.n);
      assert ([head] + rest)[1..] == rest;
    }
  }

  function Encode(e: NumericExpression, table: NumberTable): Result<Encoded>
    decreases e, 0
  {
    match e
    case Constant(c) =>
      if c.Exact? && c.number.Integer? then Ok(Encoded(S.IntVal(c.number.n), S.Constant(true)))
      else Err(Encoding)
    case VariableReference(v) =>
      if v in table && AllIntegers(table[v])
      then Ok(Encoded(S.Sum(CodeTerms(v, table[v], 0)), S.Constant(true)))
      else Err(Encoding)
    case Add(operands) =>
      var encoded :- EncodeAll(operands, table);
      Ok(Encoded(S.Sum(Terms(encoded)), S.Conj(Validities(encoded))))
    case Multiply(operands) =>
      var encoded :- EncodeAll(operands, table);
      Ok(Encoded(Product(S.IntVal(1), encoded), S.Conj(Validities(encoded))))
    case Subtract(left, right) =>
      var l :- Encode(left, table);
      var r :- Encode(right, table);
      Ok(Encoded(S.Minus(l.term, r.term), S.Conj([l.valid, r.valid])))
    case ExactDivide(dividend, divisor) =>
      var n :- Encode(dividend, table);
      var d :- Encode(divisor, table);
      var nonzero := S.CompareInts(NotEqual, d.term, S.IntVal(0));
      var exact := S.CompareInts(Equal, S.Mod(n.term, d.term), S.IntVal(0));
      Ok(Encoded(S.Div(n.term, d.term), S.Conj([n.valid, d.valid, nonzero, exact])))
    case Modulo(dividend, divisor) =>
      var n :- Encode(dividend, table);
      var d :- Encode(divisor, table);
      var positive := S.CompareInts(GreaterThan, d.term, S.IntVal(0));
      Ok(Encoded(S.Mod(n.term, d.term), S.Conj([n.valid, d.valid, positive])))
    case Negate(operand) =>
      var n :- Encode(operand, table);
      Ok(Encoded(S.Opposite(n.term), n.valid))
  }

  function EncodeAll(es: seq<NumericExpression>, table: NumberTable): (r: Result<seq<Encoded>>)
    ensures r.Ok? ==> |r.value| == |es|
    decreases es, 1
  {
    if es == [] then Ok([])
    else
      var first :- Encode(es[0], table);
      var rest :- EncodeAll(es[1..], table);
      Ok([first] + rest)
  }

  function Terms(encoded: seq<Encoded>): seq<S.IntTerm> {
    if encoded == [] then [] else [encoded[0].term] + Terms(encoded[1..])
  }

  function Validities(encoded: seq<Encoded>): seq<S.Formula> {
    if encoded == [] then [] else [encoded[0].valid] + Validities(encoded[1..])
  }

  /** `product *= term`, left to right. */
  function Product(start: S.IntTerm, encoded: seq<Encoded>): S.IntTerm
    decreases |encoded|
  {
    if encoded == [] then start else Product(S.Times(start, encoded[0].term), encoded[1..])
  }

  /** `env` lists the numbers the codes of `m` stand for. */
  ghost predicate Reads(vs: set<VariableId>, table: NumberTable, m: S.Model, env: IntegerEnvironment) {
    && vs <= env.Keys
    && forall v :: v in vs && v in table && AllIntegers(table[v])
         ==> 0 <= m.Code(v) < |table[v]| && env[v] == table[v][m.Code(v)].value.n
  }

  /** The encoding of `e` is defined exactly where the table evaluator computes a number, and it is
      that number. */
  ghost predicate Matches(e: NumericExpression, table: NumberTable, m: S.Model, env: IntegerEnvironment)
    requires Encode(e, table).Ok? && NumericVariables(e) <= env.Keys
  {
    var enc, value := Encode(e, table).value, Evaluate(TableDialect, e, env);
    && (S.Satisfies(m, enc.valid) <==> value.Value?)
    && (value.Value? ==> S.TermValue(enc.term, m) == value.n)
  }

  /** The symbolic encoding defines a number exactly where the table evaluator computes one, and it
      is the same number, whatever division by zero is taken to mean. */
  lemma {:induction false} EncodingMeansTableValue(
    e: NumericExpression, table: NumberTable, m: S.Model, env: IntegerEnvironment)
    requires Encode(e, table).Ok?
    requires Reads(NumericVariables(e), table, m, env)
    ensures Matches(e, table, m, env)
    decreases e, 0
  {
    match e
    case Constant(_) =>
    case VariableReference(v) => CodeTermsSelect(v, table[v], 0, m);
    case Add(operands) => EncodingMeansTableValues(operands, table, m, env, 1, S.IntVal(1));
    case Multiply(operands) => EncodingMeansTableValues(operands, table, m, env, 1, S.IntVal(1));
    case Subtract(left, right) =>
      EncodingMeansTableValue(left, table, m, env);
      EncodingMeansTableValue(right, table, m, env);
      DifferenceMatches(left, right, table, m, env);
    case ExactDivide(dividend, divisor) =>
      EncodingMeansTableValue(dividend, table, m, env);
      EncodingMeansTableValue(divisor, table, m, env);
      DivisionMatches(dividend, divisor, table, m, env);
    case Modulo(dividend, divisor) =>
      EncodingMeansTableValue(dividend, table, m, env);
      EncodingMeansTableValue(divisor, table, m, env);
      ModulusMatches(dividend, divisor, table, m, env);
    case Negate(operand) => EncodingMeansTableValue(operand, table, m, env);
  }

  lemma {:induction false} DifferenceMatches(left: NumericExpression, right: NumericExpression, table: NumberTable,
                                             m: S.Model, env: IntegerEnvironment)
    requires Encode(left, table).Ok? && Encode(right, table).Ok?
    requires NumericVariables(left) <= env.Keys && NumericVariables(right) <= env.Keys
    requires Matches(left, table, m, env) && Matches(right, table, m, env)
    ensures NumericVariables(Subtract(left, right)) <= env.Keys
    ensures Matches(Subtract(left, right), table, m, env)
  {
    PairValid(m, Encode(left, table).value.valid, Encode(right, table).value.valid);
  }

  lemma {:induction false} DivisionMatches(n: NumericExpression, d: NumericExpression, table: NumberTable,
                        m: S.Model, env: IntegerEnvironment)
    requires Encode(n, table).Ok? && Encode(d, table).Ok?
    requires NumericVariables(n) <= env.Keys && NumericVariables(d) <= env.Keys
    requires Matches(n, table, m, env) && Matches(d, table, m, env)
    ensures NumericVariables(ExactDivide(n, d)) <= env.Keys
    ensures Matches(ExactDivide(n, d), table, m, env)
  {
    DivisionMeans(Encode(n, table).value, Encode(d, table).value, m);
  }

  lemma {:induction false} ModulusMatches(n: NumericExpression, d: NumericExpression, table: NumberTable,
                       m: S.Model, env: IntegerEnvironment)
    requires Encode(n, table).Ok? && Encode(d, table).Ok?
    requires NumericVariables(n) <= env.Keys && NumericVariables(d) <= env.Keys
    requires Matches(n, table, m, env) && Matches(d, table, m, env)
    ensures NumericVariables(Modulo(n, d)) <= env.Keys
    ensures Matches(Modulo(n, d), table, m, env)
  {
    ModulusMeans(Encode(n, table).value, Encode(d, table).value, m);
  }

  lemma {:induction false} PairValid(m: S.Model, f: S.Formula, g: S.Formula)
    ensures S.Satisfies(m, S.Conj([f, g])) <==> S.Satisfies(m, f) && S.Satisfies(m, g)
  {
    S.SatisfiesCons(m, g, []);
    S.SatisfiesCons(m, f, [g]);
    assert [f, g] == [f] + [g] && [g] == [g] + [];
  }

  lemma {:induction false} TripleValid(m: S.Model, f: S.Formula, g: S.Formula, h: S.Formula)
    ensures S.Satisfies(m, S.Conj([f, g, h]))
      <==> (S.Satisfies(m, f) && S.Satisfies(m, g) && S.Satisfies(m, h))
  {
    PairValid(m, g, h);
    S.SatisfiesCons(m, f, [g, h]);
    assert [f, g, h] == [f] + [g, h];
  }

  lemma {:induction false} DivisionMeans(n: Encoded, d: Encoded, m: S.Model)
    ensures var nonzero := S.CompareInts(NotEqual, d.term, S.IntVal(0));
      var exact := S.CompareInts(Equal, S.Mod(n.term, d.term), S.IntVal(0));
      var x, y := S.TermValue(n.term, m), S.TermValue(d.term, m);
      && (S.Satisfies(m, S.Conj([n.valid, d.valid, nonzero, exact])) <==>
            S.Satisfies(m, n.valid) && S.Satisfies(m, d.valid) && y != 0 && FloorMod(x, y) == 0)
      && (y != 0 && FloorMod(x, y) == 0 ==> S.TermValue(S.Div(n.term, d.term), m) == FloorDiv(x, y))
  {
    var nonzero := S.CompareInts(NotEqual, d.term, S.IntVal(0));
    var exact := S.CompareInts(Equal, S.Mod(n.term, d.term), S.IntVal(0));
    TripleValid(m, d.valid, nonzero, exact);
    S.SatisfiesCons(m, n.valid, [d.valid, nonzero, exact]);
    assert [n.valid, d.valid, nonzero, exact] == [n.valid] + [d.valid, nonzero, exact];
    var x, y := S.TermValue(n.term, m), S.TermValue(d.term, m);
    if y != 0 {
      ExactDivisionAgrees(x, y);
    }
  }

  lemma {:induction false} ModulusMeans(n: Encoded, d: Encoded, m: S.Model)
    ensures var positive := S.CompareInts(GreaterThan, d.term, S.IntVal(0));
      var x, y := S.TermValue(n.term, m), S.TermValue(d.term, m);
      && (S.Satisfies(m, S.Conj([n.valid, d.valid, positive])) <==>
            S.Satisfies(m, n.valid) && S.Satisfies(m, d.valid) && y > 0)
      && (y > 0 ==> S.TermValue(S.Mod(n.term, d.term), m) == FloorMod(x, y))
  {
    TripleValid(m, n.valid, d.valid, S.CompareInts(GreaterThan, d.term, S.IntVal(0)));
  }

  lemma {:induction false} EncodingMeansTableValues(
    es: seq<NumericExpression>, table: NumberTable, m: S.Model, env: IntegerEnvironment,
    factor: int, start: S.IntTerm)
    requires EncodeAll(es, table).Ok?
    requires Reads(NumericVariablesOfAll(es), table, m, env)
    requires S.TermValue(start, m) == factor
    ensures var encoded := EncodeAll(es, table).value;
      var total, product := EvaluateSum(TableDialect, es, env), EvaluateProduct(TableDialect, es, env);
      && (S.SatisfiesAll(m, Validities(encoded)) <==> total.Value?)
      && (total.Value? <==> product.Value?)
      && (total.Value? ==> S.SumOf(Terms(encoded), m) == total.n)
      && (product.Value? ==> S.TermValue(Product(start, encoded), m) == factor * product.n)
    decreases es, 1
  {
    if es != [] {
      var first, rest := Encode(es[0], table).value, EncodeAll(es[1..], table).value;
      EncodingMeansTableValue(es[0], table, m, env);
      var value := S.TermValue(first.term, m);
      EncodingMeansTableValues(es[1..], table, m, env, factor * value, S.Times(start, first.term));
      S.SatisfiesCons(m, first.valid, Validities(rest));
      ConsEncoded(first, rest, start, m);
      var product := EvaluateProduct(TableDialect, es[1..], env);
      if product.Value? {
        ProductAssociates(factor, value, product.n);
      }
    }
  }

  lemma {:induction false} ConsEncoded(first: Encoded, rest: seq<Encoded>, start: S.IntTerm, m: S.Model)
    ensures Terms([first] + rest) == [first.term] + Terms(rest)
    ensures Validities([first] + rest) == [first.valid] + Validities(rest)
    ensures Product(start, [first] + rest) == Product(S.Times(start, first.term), rest)
    ensures S.SumOf(Terms([first] + rest), m) == S.TermValue(first.term, m) + S.SumOf(Terms(rest), m)
  {
    assert ([first] + rest)[1..] == rest;
    assert ([first.term] + Terms(rest))[1..] == Terms(rest);
  }

  lemma {:induction false} ProductAssociates(x: int, y: int, z: int)
    ensures x * y * z == x * (y * z)
  {
  }

  // ----- Boolean expressions -----

  function EncodeBoolean(e: BooleanExpression, table: NumberTable): Result<S.Formula>
    decreases e, 0
  {
    match e
    case Comparison(relation, left, right) =>
      var l :- Encode(left, table);
      var r :- Encode(right, table);
      Ok(S.Conj([l.valid, r.valid, S.CompareInts(relation, l.term, r.term)]))
    case And(operands) =>
      var encoded :- EncodeBooleans(operands, table);
      Ok(S.Conj(encoded))
    case Or(operands) =>
      var encoded :- EncodeBooleans(operands, table);
      Ok(S.Disj(encoded))
    case Not(operand) =>
      var encoded :- EncodeBoolean(operand, table);
      Ok(S.Neg(encoded))
    case Implies(premise, conclusion) =>
      var p :- EncodeBoolean(premise, table);
      var c :- EncodeBoolean(conclusion, table);
      Ok(S.Imp(p, c))
    case Xor(_, _) => Err(Encoding)
    case Equivalent(_, _) => Err(Encoding)
    case Cardinality(_, _, _) => Err(Encoding)
    case AllDifferent(_) => Err(Encoding)
  }

  function EncodeBooleans(es: seq<BooleanExpression>, table: NumberTable): Result<seq<S.Formula>>
    decreases es, 1
  {
    if es == [] then Ok([])
    else
      var first :- EncodeBoolean(es[0], table);
      var rest :- EncodeBooleans(es[1..], table);
      Ok([first] + rest)
  }

  /** A model satisfies the encoded clue exactly when the table evaluator accepts the numbers its
      codes stand for. */
  lemma {:induction false} FormulaMeansTableVerdict(
    e: BooleanExpression, table: NumberTable, m: S.Model, env: IntegerEnvironment)
    requires EncodeBoolean(e, table).Ok?
    requires Reads(BooleanVariables(e), table, m, env)
    ensures S.Satisfies(m, EncodeBoolean(e, table).value) <==> Holds(TableDialect, e, env)
    decreases e, 0
  {
    match e
    case Comparison(relation, left, right) =>
      EncodingMeansTableValue(left, table, m, env);
      EncodingMeansTableValue(right, table, m, env);
      var l, r := Encode(left, table).value, Encode(right, table).value;
      TripleValid(m, l.valid, r.valid, S.CompareInts(relation, l.term, r.term));
    case And(operands) => FormulasMeanTableVerdicts(operands, table, m, env);
    case Or(operands) => FormulasMeanTableVerdicts(operands, table, m, env);
    case Not(operand) => FormulaMeansTableVerdict(operand, table, m, env);
    case Implies(premise, conclusion) =>
      FormulaMeansTableVerdict(premise, table, m, env);
      FormulaMeansTableVerdict(conclusion, table, m, env);
  }

  lemma {:induction false} FormulasMeanTableVerdicts(
    es: seq<BooleanExpression>, table: NumberTable, m: S.Model, env: IntegerEnvironment)
    requires EncodeBooleans(es, table).Ok?
    requires Reads(BooleanVariablesOfAll(es), table, m, env)
    ensures var fs := EncodeBooleans(es, table).value;
      && (S.SatisfiesAll(m, fs) <==> AllHold(TableDialect, es, env))
      && (S.SatisfiesAny(m, fs) <==> AnyHolds(TableDialect, es, env))
    decreases es, 1
  {
    if es != [] {
      FormulaMeansTableVerdict(es[0], table, m, env);
      FormulasMeanTableVerdicts(es[1..], table, m, env);
      S.SatisfiesCons(m, EncodeBoolean(es[0], table).value, EncodeBooleans(es[1..], table).value);
    }
  }

  /** Encoding succeeds exactly on supported clues over integer variables and integer constants. */
  predicate Encodable(e: BooleanExpression, table: NumberTable) {
    EncodeBoolean(e, table).Ok?
  }

  lemma {:induction false} EncodedVariablesAreIntegers(e: BooleanExpression, table: NumberTable)
    requires Encodable(e, table)
    ensures Supported(e)
    ensures forall v :: v in BooleanVariables(e) ==> v in table && AllIntegers(table[v])
    decreases e, 0
  {
    match e
    case Comparison(_, left, right) => EncodedTermsAreIntegers(left, table); EncodedTermsAreIntegers(right, table);
    case And(operands) => AllEncodedVariablesAreIntegers(operands, table);
    case Or(operands) => AllEncodedVariablesAreIntegers(operands, table);
    case Not(operand) => EncodedVariablesAreIntegers(operand, table);
    case Implies(premise, conclusion) =>
      EncodedVariablesAreIntegers(premise, table);
      EncodedVariablesAreIntegers(conclusion, table);
  }

  lemma {:induction false} AllEncodedVariablesAreIntegers(es: seq<BooleanExpression>, table: NumberTable)
    requires EncodeBooleans(es, table).Ok?
    ensures forall o :: o in es ==> Supported(o)
    ensures forall v :: v in BooleanVariablesOfAll(es) ==> v in table && AllIntegers(table[v])
    decreases es, 1
  {
    if es != [] {
      EncodedVariablesAreIntegers(es[0], table);
      AllEncodedVariablesAreIntegers(es[1..], table);
      assert es == [es[0]] + es[1..];
    }
  }

  lemma {:induction false} EncodedTermsAreIntegers(e: NumericExpression, table: NumberTable)
    requires Encode(e, table).Ok?
    ensures forall v :: v in NumericVariables(e) ==> v in table && AllIntegers(table[v])
    decreases e, 0
  {
    match e
    case Constant(_) =>
    case VariableReference(_) =>
    case Add(operands) => AllEncodedTermsAreIntegers(operands, table);
    case Multiply(operands) => AllEncodedTermsAreIntegers(operands, table);
    case Subtract(left, right) => EncodedTermsAreIntegers(left, table); EncodedTermsAreIntegers(right, table);
    case ExactDivide(dividend, divisor) =>
      EncodedTermsAreIntegers(dividend, table); EncodedTermsAreIntegers(divisor, table);
    case Modulo(dividend, divisor) =>
      EncodedTermsAreIntegers(dividend, table); EncodedTermsAreIntegers(divisor, table);
    case Negate(operand) => EncodedTermsAreIntegers(operand, table);
  }

  lemma {:induction false} AllEncodedTermsAreIntegers(es: seq<NumericExpression>, table: NumberTable)
    requires EncodeAll(es, table).Ok?
    ensures forall v :: v in NumericVariablesOfAll(es) ==> v in table && AllIntegers(table[v])
    decreases es, 1
  {
    if es != [] {
      EncodedTermsAreIntegers(es[0], table);
      AllEncodedTermsAreIntegers(es[1..], table);
    }
  }
}

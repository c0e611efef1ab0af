/** The fragment of SMT-LIB the symbolic backend emits, with its standard meaning. */
module Smt {
  import opened Prelude
  import opened Domain

  /** Integer terms. `IfCode(v, k, n)` is `ite (v = k) n 0`; `Div` and `Mod` are the Euclidean
      operators of the Ints theory. */
  datatype IntTerm =
    | IntVal(n: int)
    | IfCode(variable: VariableId, code: int, n: int)
    | Sum(terms: seq<IntTerm>)
    | Times(left: IntTerm, right: IntTerm)
    | Minus(left: IntTerm, right: IntTerm)
    | Div(left: IntTerm, right: IntTerm)
    | Mod(left: IntTerm, right: IntTerm)
    | Opposite(term: IntTerm)

  /** Rational terms; integer subterms are read through the inclusion of Int in Real. */
  datatype RealTerm =
    | RealVal(q: real)
    | IfCodeReal(variable: VariableId, code: int, q: real)
    | SumReal(terms: seq<RealTerm>)
    | MinusReal(left: RealTerm, right: RealTerm)

  datatype Formula =
    | Constant(b: bool)
    | CodeIs(variable: VariableId, code: int)
    | CompareCodes(relation: Relation, v: VariableId, w: VariableId)
    | CompareInts(relation: Relation, left: IntTerm, right: IntTerm)
    | CompareReals(relation: Relation, leftReal: RealTerm, rightReal: RealTerm)
    | Conj(formulas: seq<Formula>)
    | Disj(formulas: seq<Formula>)
    | Neg(formula: Formula)
    | Differ(first: Formula, second: Formula)
    | Iff(first: Formula, second: Formula)
    | Imp(first: Formula, second: Formula)
    | CountBetween(formulas: seq<Formula>, minimum: int, maximum: int)
    | Distinct(variables: seq<VariableId>)

  /** An interpretation: integer variables, and the values SMT-LIB leaves open on division by
      zero, which are arbitrary functions of the dividend. */
  datatype Model = Model(codes: map<VariableId, int>, divByZero: int -> int, modByZero: int -> int) {
    function Code(v: VariableId): int {
      if v in codes then codes[v] else 0
    }
  }

  function TermValue(t: IntTerm, m: Model): int
    decreases t, 0
  {
    match t
    case IntVal(n) => n
    case IfCode(v, code, n) => if m.Code(v) == code then n else 0
    case Sum(ts) => SumOf(ts, m)
    case Times(left, right) => TermValue(left, m) * TermValue(right, m)
    case Minus(left, right) => TermValue(left, m) - TermValue(right, m)
    case Div(left, right) =>
      var n, d := TermValue(left, m), TermValue(right, m);
      if d == 0 then m.divByZero(n) else n / d
    case Mod(left, right) =>
      var n, d := TermValue(left, m), TermValue(right, m);
      if d == 0 then m.modByZero(n) else n % d
    case Opposite(term) => -TermValue(term, m)
  }

  function SumOf(ts: seq<IntTerm>, m: Model): int
    decreases ts, 1
  {
    if ts == [] then 0 else TermValue(ts[0], m) + SumOf(ts[1..], m)
  }

  function RealValue(t: RealTerm, m: Model): real
    decreases t, 0
  {
    match t
    case RealVal(q) => q
    case IfCodeReal(v, code, q) => if m.Code(v) == code then q else 0.0
    case SumReal(ts) => SumOfReals(ts, m)
    case MinusReal(left, right) => RealValue(left, m) - RealValue(right, m)
  }

  function SumOfReals(ts: seq<RealTerm>, m: Model): real
    decreases ts, 1
  {
    if ts == [] then 0.0 else RealValue(ts[0], m) + SumOfReals(ts[1..], m)
  }

  predicate Satisfies(m: Model, f: Formula)
    decreases f, 0
  {
    match f
    case Constant(b) => b
    case CodeIs(v, code) => m.Code(v) == code
    case CompareCodes(relation, v, w) => Compare(relation, m.Code(v), m.Code(w))
    case CompareInts(relation, left, right) =>
      Compare(relation, TermValue(left, m), TermValue(right, m))
    case CompareReals(relation, left, right) =>
      CompareReal(relation, RealValue(left, m), RealValue(right, m))
    case Conj(fs) => SatisfiesAll(m, fs)
    case Disj(fs) => SatisfiesAny(m, fs)
    case Neg(g) => !Satisfies(m, g)
    case Differ(g, h) => Satisfies(m, g) != Satisfies(m, h)
    case Iff(g, h) => Satisfies(m, g) == Satisfies(m, h)
    case Imp(g, h) => Satisfies(m, g) ==> Satisfies(m, h)
    case CountBetween(fs, minimum, maximum) => minimum <= CountSatisfied(m, fs) <= maximum
    case Distinct(vs) => forall i, j :: 0 <= i < j < |vs| ==> m.Code(vs[i]) != m.Code(vs[j])
  }

  predicate SatisfiesAll(m: Model, fs: seq<Formula>)
    decreases fs, 1
  {
    forall i :: 0 <= i < |fs| ==> Satisfies(m, fs[i])
  }

  predicate SatisfiesAny(m: Model, fs: seq<Formula>)
    decreases fs, 1
  {
    exists i :: 0 <= i < |fs| && Satisfies(m, fs[i])
  }

  function CountSatisfied(m: Model, fs: seq<Formula>): nat
    decreases fs, 1
  {
    if fs == [] then 0
    else (if Satisfies(m, fs[0]) then 1 else 0) + CountSatisfied(m, fs[1..])
  }

  lemma {:induction false} SatisfiesCons(m: Model, f: Formula, fs: seq<Formula>)
    ensures SatisfiesAll(m, [f] + fs) <==> Satisfies(m, f) && SatisfiesAll(m, fs)
    ensures SatisfiesAny(m, [f] + fs) <==> Satisfies(m, f) || SatisfiesAny(m, fs)
    ensures CountSatisfied(m, [f] + fs) == (if Satisfies(m, f) then 1 else 0) + CountSatisfied(m, fs)
  {
    var all := [f] + fs;
    assert all[1..] == fs;
    assert forall i :: 0 <= i < |fs| ==> all[i + 1] == fs[i];
    if i :| 0 <= i < |all| && Satisfies(m, all[i]) {
      assert i == 0 || all[i] == fs[i - 1];
    }
    if Satisfies(m, f) {
      assert Satisfies(m, all[0]);
    }
    if i :| 0 <= i < |fs| && Satisfies(m, fs[i]) {
      assert Satisfies(m, all[i + 1]);
    }
    assert SatisfiesAll(m, all) ==> Satisfies(m, all[0]);
    if SatisfiesAll(m, all) {
      forall i | 0 <= i < |fs| ensures Satisfies(m, fs[i]) {
        assert Satisfies(m, all[i + 1]);
      }
    }
  }
}

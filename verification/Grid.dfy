/** Logic Grid clue expressions: the two direct evaluators, the symbolic encoder, and their agreement. */
module Grid {
  import opened Prelude
  import opened Domain
  import S = Smt

  /** What an evaluator looks variables up in. The truth-table encoder reads value codes; the final
      checker and the human rules read value identifiers with their ordinals and numbers. */
  datatype Reading =
    | Codes(codes: map<VariableId, int>, table: NumberTable)
    | Values(values: Assignment, ordinals: map<ValueId, int>, numbers: map<ValueId, Number>)

  /** A number, or nothing where the evaluator raises. */
  function NumberOf(e: NumericExpression, reading: Reading): Option<real> {
    match e
    case Constant(c) => if c.Exact? then Some(c.number.AsReal()) else None
    case VariableReference(v) => NumberAt(v, reading)
    case Subtract(left, right) =>
      (match (NumberOf(left, reading), NumberOf(right, reading))
       case (Some(l), Some(r)) => Some(l - r)
       case _ => None)
    case _ => None
  }

  function NumberAt(v: VariableId, reading: Reading): Option<real> {
    match reading
    case Codes(codes, table) =>
      if v in codes && v in table && AllRationals(table[v]) && 0 <= codes[v] < |table[v]|
      then Some(table[v][codes[v]].value.AsReal()) else None
    case Values(values, _, numbers) =>
      if v in values && values[v] in numbers then Some(numbers[values[v]].AsReal()) else None
  }

  /** Two variables compared directly: by code, or by identity and row order. */
  function RowRelation(relation: Relation, v: VariableId, w: VariableId, reading: Reading): Option<bool> {
    match reading
    case Codes(codes, _) =>
      if v in codes && w in codes then Some(Compare(relation, codes[v], codes[w])) else None
    case Values(values, ordinals, _) =>
      if v !in values || w !in values then None
      else if relation.Equal? then Some(values[v] == values[w])
      else if relation.NotEqual? then Some(values[v] != values[w])
      else if values[v] in ordinals && values[w] in ordinals
      then Some(Compare(relation, ordinals[values[v]], ordinals[values[w]]))
      else None
  }

  function JudgeComparison(relation: Relation, left: NumericExpression, right: NumericExpression,
                           reading: Reading): Option<bool> {
    if left.VariableReference? && right.VariableReference?
    then RowRelation(relation, left.variable, right.variable, reading)
    else
      match (NumberOf(left, reading), NumberOf(right, reading))
      case (Some(l), Some(r)) => Some(CompareReal(relation, l, r))
      case _ => None
  }

  /** The verdict on a clue, or nothing where evaluation raises. `all`, `any` and `or` stop early,
      so an operand that would raise may never be reached. */
  function Judge(e: BooleanExpression, reading: Reading): Option<bool>
    decreases e, 0
  {
    match e
    case Comparison(relation, left, right) => JudgeComparison(relation, left, right, reading)
    case And(operands) => JudgeAll(operands, reading)
    case Or(operands) => JudgeAny(operands, reading)
    case Not(operand) =>
      (match Judge(operand, reading)
       case Some(b) => Some(!b)
       case None => None)
    case Xor(first, second) =>
      (match (Judge(first, reading), Judge(second, reading))
       case (Some(b), Some(c)) => Some(b != c)
       case _ => None)
    case Equivalent(first, second) =>
      (match (Judge(first, reading), Judge(second, reading))
       case (Some(b), Some(c)) => Some(b == c)
       case _ => None)
    case Implies(premise, conclusion) =>
      (match Judge(premise, reading)
       case Some(true) => Judge(conclusion, reading)
       case Some(false) => Some(true)
       case None => None)
    case Cardinality(operands, minimum, maximum) =>
      (match JudgeCount(operands, reading)
       case Some(n) => Some(minimum <= n <= maximum)
       case None => None)
    case AllDifferent(_) => None
  }

  function JudgeAll(es: seq<BooleanExpression>, reading: Reading): Option<bool>
    decreases es, 1
  {
    if es == [] then Some(true)
    else
      match Judge(es[0], reading)
      case Some(true) => JudgeAll(es[1..], reading)
      case other => other
  }

  function JudgeAny(es: seq<BooleanExpression>, reading: Reading): Option<bool>
    decreases es, 1
  {
    if es == [] then Some(false)
    else
      match Judge(es[0], reading)
      case Some(false) => JudgeAny(es[1..], reading)
      case other => other
  }

  function JudgeCount(es: seq<BooleanExpression>, reading: Reading): Option<nat>
    decreases es, 1
  {
    if es == [] then Some(0)
    else
      match (Judge(es[0], reading), JudgeCount(es[1..], reading))
      case (Some(b), Some(n)) => Some(if b then n + 1 else n)
      case _ => None
  }

  // ----- symbolic encoding -----

  function CodeTerms(v: VariableId, numbers: seq<Option<Number>>, start: nat): seq<S.RealTerm>
    requires AllRationals(numbers)
    requires start <= |numbers|
    decreases |numbers| - start
  {
    if start == |numbers| then []
    else [S.IfCodeReal(v, start, numbers[start].value.AsReal())] + CodeTerms(v, numbers, start + 1)
  }

  lemma {:induction false} CodeTermsSelect(v: VariableId, numbers: seq<Option<Number>>, start: nat, m: S.Model)
    requires AllRationals(numbers) && start <= |numbers|
    ensures S.SumOfReals(CodeTerms(v, numbers, start), m)
      == if start <= m.Code(v) < |numbers| then numbers[m.Code(v)].value.AsReal() else 0.0
    decreases |numbers| - start
  {
    if start < |numbers| {
      CodeTermsSelect(v, numbers, start + 1, m);
      var rest := CodeTerms(v, numbers, start + 1);
      assert ([S.IfCodeReal(v, start, numbers[start].value.AsReal())] + rest)[1..] == rest;
    }
  }

  function EncodeNumber(e: NumericExpression, table: NumberTable): Result<S.RealTerm> {
    match e
    case Constant(c) => if c.Exact? then Ok(S.RealVal(c.number.AsReal())) else Err(Encoding)
    case VariableReference(v) =>
      if v in table && AllRationals(table[v]) then Ok(S.SumReal(CodeTerms(v, table[v], 0)))
      else Err(Encoding)
    case Subtract(left, right) =>
      var l :- EncodeNumber(left, table);
      var r :- EncodeNumber(right, table);
      Ok(S.MinusReal(l, r))
    case _ => Err(Encoding)
  }

  function EncodeComparison(relation: Relation, left: NumericExpression, right: NumericExpression,
                            table: NumberTable): Result<S.Formula> {
    if left.VariableReference? && right.VariableReference? then
      if left.variable in table && right.variable in table
      then Ok(S.CompareCodes(relation, left.variable, right.variable)) else Err(Encoding)
    else
      var l :- EncodeNumber(left, table);
      var r :- EncodeNumber(right, table);
      Ok(S.CompareReals(relation, l, r))
  }

  function Encode(e: BooleanExpression, table: NumberTable): Result<S.Formula>
    decreases e, 0
  {
    match e
    case Comparison(relation, left, right) => EncodeComparison(relation, left, right, table)
    case And(operands) =>
      var encoded :- EncodeAll(operands, table);
      Ok(S.Conj(encoded))
    case Or(operands) =>
      var encoded :- EncodeAll(operands, table);
      Ok(S.Disj(encoded))
    case Not(operand) =>
      var encoded :- Encode(operand, table);
      Ok(S.Neg(encoded))
    case Xor(first, second) =>
      var f :- Encode(first, table);
      var g :- Encode(second, table);
      Ok(S.Differ(f, g))
    case Implies(premise, conclusion) =>
      var f :- Encode(premise, table);
      var g :- Encode(conclusion, table);
      Ok(S.Imp(f, g))
    case Equivalent(first, second) =>
      var f :- Encode(first, table);
      var g :- Encode(second, table);
      Ok(S.Iff(f, g))
    case Cardinality(operands, minimum, maximum) =>
      var encoded :- EncodeAll(operands, table);
      Ok(S.CountBetween(encoded, minimum, maximum))
    case AllDifferent(_) => Err(Encoding)
  }

  function EncodeAll(es: seq<BooleanExpression>, table: NumberTable): Result<seq<S.Formula>>
    decreases es, 1
  {
    if es == [] then Ok([])
    else
      var first :- Encode(es[0], table);
      var rest :- EncodeAll(es[1..], table);
      Ok([first] + rest)
  }

  /** The codes a model gives the tabled variables. */
  ghost function CodesIn(m: S.Model, table: NumberTable): map<VariableId, int> {
    map v | v in table :: m.Code(v)
  }

  /** Every tabled variable has a code in range. */
  ghost predicate InRange(m: S.Model, table: NumberTable) {
    forall v :: v in table ==> 0 <= m.Code(v) < |table[v]|
  }

  lemma {:induction false} EncodedNumberMeans(e: NumericExpression, table: NumberTable, m: S.Model)
    requires EncodeNumber(e, table).Ok? && InRange(m, table)
    ensures NumberOf(e, Codes(CodesIn(m, table), table)) == Some(S.RealValue(EncodeNumber(e, table).value, m))
  {
    match e
    case Constant(_) =>
    case VariableReference(v) => CodeTermsSelect(v, table[v], 0, m);
    case Subtract(left, right) => EncodedNumberMeans(left, table, m); EncodedNumberMeans(right, table, m);
  }

  lemma {:induction false} ComparisonMeansVerdict(
    relation: Relation, left: NumericExpression, right: NumericExpression, table: NumberTable, m: S.Model)
    requires Encode(Comparison(relation, left, right), table).Ok? && InRange(m, table)
    ensures var e := Comparison(relation, left, right);
      Judge(e, Codes(CodesIn(m, table), table)) == Some(S.Satisfies(m, Encode(e, table).value))
  {
    if !(left.VariableReference? && right.VariableReference?) {
      EncodedNumberMeans(left, table, m);
      EncodedNumberMeans(right, table, m);
    }
  }

  /** Where the symbolic encoder succeeds, evaluating the clue on the model's codes never raises and
      gives the truth value of the formula. */
  lemma {:induction false} FormulaMeansVerdict(e: BooleanExpression, table: NumberTable, m: S.Model)
    requires Encode(e, table).Ok? && InRange(m, table)
    ensures Judge(e, Codes(CodesIn(m, table), table)) == Some(S.Satisfies(m, Encode(e, table).value))
    decreases e, 0
  {
    match e
    case Comparison(relation, left, right) => ComparisonMeansVerdict(relation, left, right, table, m);
    case And(operands) => FormulasMeanVerdicts(operands, table, m);
    case Or(operands) => FormulasMeanVerdicts(operands, table, m);
    case Not(operand) => FormulaMeansVerdict(operand, table, m);
    case Xor(first, second) => FormulaMeansVerdict(first, table, m); FormulaMeansVerdict(second, table, m);
    case Implies(first, second) => FormulaMeansVerdict(first, table, m); FormulaMeansVerdict(second, table, m);
    case Equivalent(first, second) => FormulaMeansVerdict(first, table, m); FormulaMeansVerdict(second, table, m);
    case Cardinality(operands, _, _) => FormulasMeanVerdicts(operands, table, m);
  }

  lemma {:induction false} FormulasMeanVerdicts(es: seq<BooleanExpression>, table: NumberTable, m: S.Model)
    requires EncodeAll(es, table).Ok? && InRange(m, table)
    ensures var fs, reading := EncodeAll(es, table).value, Codes(CodesIn(m, table), table);
      && JudgeAll(es, reading) == Some(S.SatisfiesAll(m, fs))
      && JudgeAny(es, reading) == Some(S.SatisfiesAny(m, fs))
      && JudgeCount(es, reading) == Some(S.CountSatisfied(m, fs))
    decreases es, 1
  {
    if es != [] {
      FormulaMeansVerdict(es[0], table, m);
      FormulasMeanVerdicts(es[1..], table, m);
      S.SatisfiesCons(m, Encode(es[0], table).value, EncodeAll(es[1..], table).value);
    }
  }

  lemma {:induction false} EncodedNumberVariables(e: NumericExpression, table: NumberTable)
    requires EncodeNumber(e, table).Ok?
    ensures NumericVariables(e) <= table.Keys
  {
    match e
    case Subtract(left, right) => EncodedNumberVariables(left, table); EncodedNumberVariables(right, table);
    case _ =>
  }

  /** The symbolic encoder refuses clues about variables it has no values for. */
  lemma {:induction false} EncodedVariables(e: BooleanExpression, table: NumberTable)
    requires Encode(e, table).Ok?
    ensures BooleanVariables(e) <= table.Keys
    decreases e, 0
  {
    match e
    case Comparison(relation, left, right) =>
      if !(left.VariableReference? && right.VariableReference?) {
        EncodedNumberVariables(left, table);
        EncodedNumberVariables(right, table);
      }
    case And(operands) => AllEncodedVariables(operands, table);
    case Or(operands) => AllEncodedVariables(operands, table);
    case Cardinality(operands, _, _) => AllEncodedVariables(operands, table);
    case Not(operand) => EncodedVariables(operand, table);
    case Xor(f, g) => EncodedVariables(f, table); EncodedVariables(g, table);
    case Implies(f, g) => EncodedVariables(f, table); EncodedVariables(g, table);
    case Equivalent(f, g) => EncodedVariables(f, table); EncodedVariables(g, table);
  }

  lemma {:induction false} AllEncodedVariables(es: seq<BooleanExpression>, table: NumberTable)
    requires EncodeAll(es, table).Ok?
    ensures BooleanVariablesOfAll(es) <= table.Keys
    decreases es, 1
  {
    if es != [] {
      EncodedVariables(es[0], table);
      AllEncodedVariables(es[1..], table);
    }
  }

  // ----- only the variables of an expression matter -----

  /** Two readings of the same kind that agree on the given variables. */
  ghost predicate Alike(vs: set<VariableId>, r: Reading, s: Reading) {
    match (r, s)
    case (Codes(c, table), Codes(d, other)) =>
      table == other && forall v :: v in vs ==> v in c && v in d && c[v] == d[v]
    case (Values(a, ordinals, numbers), Values(b, ordinals', numbers')) =>
      ordinals == ordinals' && numbers == numbers' && forall v :: v in vs ==> v in a && v in b && a[v] == b[v]
    case _ => false
  }

  lemma {:induction false} NumberIsLocal(e: NumericExpression, r: Reading, s: Reading)
    requires Alike(NumericVariables(e), r, s)
    ensures NumberOf(e, r) == NumberOf(e, s)
  {
    match e
    case Subtract(left, right) => NumberIsLocal(left, r, s); NumberIsLocal(right, r, s);
    case _ =>
  }

  lemma {:induction false} VerdictIsLocal(e: BooleanExpression, r: Reading, s: Reading)
    requires Alike(BooleanVariables(e), r, s)
    ensures Judge(e, r) == Judge(e, s)
    decreases e, 0
  {
    match e
    case Comparison(_, left, right) => NumberIsLocal(left, r, s); NumberIsLocal(right, r, s);
    case And(operands) => VerdictsAreLocal(operands, r, s);
    case Or(operands) => VerdictsAreLocal(operands, r, s);
    case Cardinality(operands, _, _) => VerdictsAreLocal(operands, r, s);
    case Not(operand) => VerdictIsLocal(operand, r, s);
    case Xor(f, g) => VerdictIsLocal(f, r, s); VerdictIsLocal(g, r, s);
    case Equivalent(f, g) => VerdictIsLocal(f, r, s); VerdictIsLocal(g, r, s);
    case Implies(f, g) => VerdictIsLocal(f, r, s); VerdictIsLocal(g, r, s);
    case AllDifferent(_) =>
  }

  lemma {:induction false} VerdictsAreLocal(es: seq<BooleanExpression>, r: Reading, s: Reading)
    requires Alike(BooleanVariablesOfAll(es), r, s)
    ensures JudgeAll(es, r) == JudgeAll(es, s)
    ensures JudgeAny(es, r) == JudgeAny(es, s)
    ensures JudgeCount(es, r) == JudgeCount(es, s)
    decreases es, 1
  {
    if es != [] {
      VerdictIsLocal(es[0], r, s);
      VerdictsAreLocal(es[1..], r, s);
    }
  }

  // ----- expressions the specification admits -----

  /** `_validate_numeric_expression` */
  predicate AdmittedNumber(e: NumericExpression, variables: set<VariableId>, complete: bool) {
    match e
    case VariableReference(v) => v in variables
    case Constant(c) => c.Exact? && complete
    case Subtract(left, right) =>
      complete && AdmittedNumber(left, variables, complete) && AdmittedNumber(right, variables, complete)
    case _ => false
  }

  /** `_validate_boolean_expression`: order relations need an ordered anchor, numeric ones numbers. */
  predicate Admitted(e: BooleanExpression, variables: set<VariableId>, ordered: bool, complete: bool)
    decreases e, 0
  {
    match e
    case Comparison(relation, left, right) =>
      && AdmittedNumber(left, variables, complete) && AdmittedNumber(right, variables, complete)
      && (if relation.Equal? || relation.NotEqual?
          then (left.VariableReference? && right.VariableReference?) || complete
          else ordered)
    case And(operands) => AllAdmitted(operands, variables, ordered, complete)
    case Or(operands) => AllAdmitted(operands, variables, ordered, complete)
    case Cardinality(operands, _, _) => AllAdmitted(operands, variables, ordered, complete)
    case Not(operand) => Admitted(operand, variables, ordered, complete)
    case Xor(first, second) =>
      Admitted(first, variables, ordered, complete) && Admitted(second, variables, ordered, complete)
    case Equivalent(first, second) =>
      Admitted(first, variables, ordered, complete) && Admitted(second, variables, ordered, complete)
    case Implies(premise, conclusion) =>
      Admitted(premise, variables, ordered, complete) && Admitted(conclusion, variables, ordered, complete)
    case AllDifferent(_) => false
  }

  predicate AllAdmitted(es: seq<BooleanExpression>, variables: set<VariableId>, ordered: bool, complete: bool)
    decreases es, 1
  {
    es == [] || (Admitted(es[0], variables, ordered, complete)
                 && AllAdmitted(es[1..], variables, ordered, complete))
  }

  // ----- the anchor domain, as the checker and the rules read it -----

  /** Row order: the declared ordinal, or the one-based position. */
  function Ordinals(anchor: seq<DomainValue>): map<ValueId, int> {
    if anchor == [] then map[]
    else
      var last := anchor[|anchor| - 1];
      Ordinals(anchor[..|anchor| - 1])[last.id := if last.ordinal.Some? then last.ordinal.value else |anchor|]
  }

  function Numbers(anchor: seq<DomainValue>): map<ValueId, Number> {
    if anchor == [] then map[]
    else
      var last := anchor[|anchor| - 1];
      var earlier := Numbers(anchor[..|anchor| - 1]);
      if last.numeric.Some? then earlier[last.id := last.numeric.value] else earlier
  }

  /** `_anchor_semantics`: one pass over the anchor values filling both dictionaries. */
  method AnchorSemantics(anchor: seq<DomainValue>)
    returns (ordinals: map<ValueId, int>, numbers: map<ValueId, Number>)
    ensures ordinals == Ordinals(anchor) && numbers == Numbers(anchor)
  {
    ordinals, numbers := map[], map[];
    for i := 0 to |anchor|
      invariant ordinals == Ordinals(anchor[..i]) && numbers == Numbers(anchor[..i])
    {
      var value := anchor[i];
      assert anchor[..i + 1][..i] == anchor[..i];
      ordinals := ordinals[value.id := if value.ordinal.Some? then value.ordinal.value else i + 1];
      if value.numeric.Some? {
        numbers := numbers[value.id := value.numeric.value];
      }
    }
    assert anchor[..|anchor|] == anchor;
  }

  lemma {:induction false} AnchorLookup(anchor: seq<DomainValue>, k: nat)
    requires NoDuplicates(ValueIds(anchor)) && k < |anchor|
    ensures var x := anchor[k];
      && x.id in Ordinals(anchor)
      && Ordinals(anchor)[x.id] == (if x.ordinal.Some? then x.ordinal.value else k + 1)
      && (x.id in Numbers(anchor) <==> x.numeric.Some?)
      && (x.numeric.Some? ==> Numbers(anchor)[x.id] == x.numeric.value)
  {
    var n := |anchor| - 1;
    assert ValueIds(anchor)[n] == anchor[n].id && ValueIds(anchor)[k] == anchor[k].id;
    if k < n {
      var earlier := anchor[..n];
      assert NoDuplicates(ValueIds(earlier)) by {
        assert forall i :: 0 <= i < n ==> ValueIds(earlier)[i] == ValueIds(anchor)[i];
      }
      AnchorLookup(earlier, k);
    } else {
      NumbersKeys(anchor[..n]);
      assert forall i :: 0 <= i < n ==> ValueIds(anchor)[i] == anchor[..n][i].id;
    }
  }

  lemma {:induction false} NumbersKeys(anchor: seq<DomainValue>)
    ensures forall x :: x in Numbers(anchor) ==> exists i :: 0 <= i < |anchor| && anchor[i].id == x
  {
    if anchor != [] {
      var n := |anchor| - 1;
      NumbersKeys(anchor[..n]);
      forall x | x in Numbers(anchor) ensures exists i :: 0 <= i < |anchor| && anchor[i].id == x {
        if x in Numbers(anchor[..n]) {
          var i :| 0 <= i < n && anchor[..n][i].id == x;
          assert anchor[i].id == x;
        } else {
          assert anchor[n].id == x;
        }
      }
    }
  }

  /** The anchor-domain part of the specification: ordinals 1..n when ordered, numbers when complete. */
  ghost predicate ValidAnchor(anchor: seq<DomainValue>, ordered: bool, complete: bool) {
    && NoDuplicates(ValueIds(anchor))
    && (ordered ==> forall k :: 0 <= k < |anchor| ==> anchor[k].ordinal == Some(k + 1))
    && (complete ==> AllRationals(NumericOf(anchor)))
  }

  /** `values` and `codes` are the same choice of anchor rows, and every variable is over the anchor. */
  ghost predicate Aligned(codes: map<VariableId, int>, values: Assignment, table: NumberTable,
                          anchor: seq<DomainValue>, variables: set<VariableId>) {
    && variables <= codes.Keys && variables <= values.Keys && variables <= table.Keys
    && (forall v :: v in variables ==>
          0 <= codes[v] < |anchor| && values[v] == anchor[codes[v]].id && table[v] == NumericOf(anchor))
  }

  lemma {:induction false} NumbersAgree(
    e: NumericExpression, codes: map<VariableId, int>, values: Assignment, table: NumberTable,
    anchor: seq<DomainValue>, variables: set<VariableId>, ordered: bool)
    requires ValidAnchor(anchor, ordered, true) && Aligned(codes, values, table, anchor, variables)
    requires AdmittedNumber(e, variables, true)
    ensures NumberOf(e, Codes(codes, table)).Some?
    ensures NumberOf(e, Codes(codes, table)) == NumberOf(e, Values(values, Ordinals(anchor), Numbers(anchor)))
    ensures EncodeNumber(e, table).Ok?
  {
    match e
    case Constant(_) =>
    case VariableReference(v) => AnchorLookup(anchor, codes[v]); assert NumericOf(anchor)[codes[v]].Some?;
    case Subtract(left, right) =>
      NumbersAgree(left, codes, values, table, anchor, variables, ordered);
      NumbersAgree(right, codes, values, table, anchor, variables, ordered);
  }

  lemma {:induction false} ComparisonsAgree(
    relation: Relation, left: NumericExpression, right: NumericExpression,
    codes: map<VariableId, int>, values: Assignment, table: NumberTable,
    anchor: seq<DomainValue>, variables: set<VariableId>, ordered: bool, complete: bool)
    requires ValidAnchor(anchor, ordered, complete) && Aligned(codes, values, table, anchor, variables)
    requires Admitted(Comparison(relation, left, right), variables, ordered, complete)
    ensures var reading := Codes(codes, table);
      && JudgeComparison(relation, left, right, reading).Some?
      && JudgeComparison(relation, left, right, reading)
           == JudgeComparison(relation, left, right, Values(values, Ordinals(anchor), Numbers(anchor)))
      && EncodeComparison(relation, left, right, table).Ok?
  {
    if left.VariableReference? && right.VariableReference? {
      var i, j := codes[left.variable], codes[right.variable];
      AnchorLookup(anchor, i);
      AnchorLookup(anchor, j);
      assert ValueIds(anchor)[i] == anchor[i].id && ValueIds(anchor)[j] == anchor[j].id;
    } else {
      assert complete;
      NumbersAgree(left, codes, values, table, anchor, variables, ordered);
      NumbersAgree(right, codes, values, table, anchor, variables, ordered);
    }
  }

  /** The truth-table evaluator and the final checker give the same verdict on every admitted clue,
      one comparing codes, the other identifiers, ordinals and numbers; neither ever raises, and the
      symbolic encoder accepts the clue. */
  lemma {:induction false} VerdictsAgree(
    e: BooleanExpression, codes: map<VariableId, int>, values: Assignment, table: NumberTable,
    anchor: seq<DomainValue>, variables: set<VariableId>, ordered: bool, complete: bool)
    requires ValidAnchor(anchor, ordered, complete) && Aligned(codes, values, table, anchor, variables)
    requires Admitted(e, variables, ordered, complete)
    ensures Judge(e, Codes(codes, table)).Some?
    ensures Judge(e, Codes(codes, table)) == Judge(e, Values(values, Ordinals(anchor), Numbers(anchor)))
    ensures Encode(e, table).Ok?
    decreases e, 0
  {
    match e
    case Comparison(relation, left, right) =>
      ComparisonsAgree(relation, left, right, codes, values, table, anchor, variables, ordered, complete);
    case And(operands) => AllVerdictsAgree(operands, codes, values, table, anchor, variables, ordered, complete);
    case Or(operands) => AllVerdictsAgree(operands, codes, values, table, anchor, variables, ordered, complete);
    case Cardinality(operands, _, _) =>
      AllVerdictsAgree(operands, codes, values, table, anchor, variables, ordered, complete);
    case Not(operand) => VerdictsAgree(operand, codes, values, table, anchor, variables, ordered, complete);
    case Xor(f, g) =>
      VerdictsAgree(f, codes, values, table, anchor, variables, ordered, complete);
      VerdictsAgree(g, codes, values, table, anchor, variables, ordered, complete);
    case Equivalent(f, g) =>
      VerdictsAgree(f, codes, values, table, anchor, variables, ordered, complete);
      VerdictsAgree(g, codes, values, table, anchor, variables, ordered, complete);
    case Implies(f, g) =>
      VerdictsAgree(f, codes, values, table, anchor, variables, ordered, complete);
      VerdictsAgree(g, codes, values, table, anchor, variables, ordered, complete);
  }

  lemma {:induction false} AllVerdictsAgree(
    es: seq<BooleanExpression>, codes: map<VariableId, int>, values: Assignment, table: NumberTable,
    anchor: seq<DomainValue>, variables: set<VariableId>, ordered: bool, complete: bool)
    requires ValidAnchor(anchor, ordered, complete) && Aligned(codes, values, table, anchor, variables)
    requires AllAdmitted(es, variables, ordered, complete)
    ensures var byCode, byValue := Codes(codes, table), Values(values, Ordinals(anchor), Numbers(anchor));
      && JudgeAll(es, byCode).Some? && JudgeAll(es, byCode) == JudgeAll(es, byValue)
      && JudgeAny(es, byCode).Some? && JudgeAny(es, byCode) == JudgeAny(es, byValue)
      && JudgeCount(es, byCode).Some? && JudgeCount(es, byCode) == JudgeCount(es, byValue)
      && EncodeAll(es, table).Ok?
    decreases es, 1
  {
    if es != [] {
      VerdictsAgree(es[0], codes, values, table, anchor, variables, ordered, complete);
      AllVerdictsAgree(es[1..], codes, values, table, anchor, variables, ordered, complete);
    }
  }
}

/** The guided builder's clue templates, their stated meaning, and their compilation. */
module Templates {
  import opened Prelude
  import opened Domain
  import opened Grid

  /** An item by its category key and its own key. */
  datatype ItemRef = ItemRef(category: string, item: string)

  datatype Template =
    | Association(left: ItemRef, right: ItemRef, same: bool)
    | Ordering(earlier: ItemRef, later: ItemRef)
    | NumericDifference(greater: ItemRef, lesser: ItemRef, difference: Number)
    | AllOf(operands: seq<Template>)
    | AnyOneOf(operands: seq<Template>)
    | Negation(operand: Template)
    | Exclusive(first: Template, second: Template)
    | Conditional(premise: Template, conclusion: Template)
    | Equivalence(first: Template, second: Template)
    | Between(operands: seq<Template>, minimum: int, maximum: int)

  /** What the template constructors insist on. */
  predicate WellFormed(t: Template)
    decreases t, 0
  {
    match t
    case Association(_, _, _) => true
    case Ordering(_, _) => true
    case NumericDifference(_, _, d) => d.AsReal() > 0.0
    case AllOf(operands) => |operands| >= 2 && AllWellFormed(operands)
    case AnyOneOf(operands) => |operands| >= 2 && AllWellFormed(operands)
    case Negation(operand) => WellFormed(operand)
    case Exclusive(first, second) => WellFormed(first) && WellFormed(second)
    case Conditional(premise, conclusion) => WellFormed(premise) && WellFormed(conclusion)
    case Equivalence(first, second) => WellFormed(first) && WellFormed(second)
    case Between(operands, minimum, maximum) =>
      operands != [] && 0 <= minimum <= maximum <= |operands| && AllWellFormed(operands)
  }

  predicate AllWellFormed(ts: seq<Template>)
    decreases ts, 1
  {
    ts == [] || (WellFormed(ts[0]) && AllWellFormed(ts[1..]))
  }

  function Children(t: Template): seq<Template> {
    match t
    case AllOf(operands) => operands
    case AnyOneOf(operands) => operands
    case Between(operands, _, _) => operands
    case Negation(operand) => [operand]
    case Exclusive(first, second) => [first, second]
    case Equivalence(first, second) => [first, second]
    case Conditional(premise, conclusion) => [premise, conclusion]
    case _ => []
  }

  /** Every item a template mentions. */
  function Refs(t: Template): set<ItemRef>
    decreases t, 0
  {
    match t
    case Association(left, right, _) => {left, right}
    case Ordering(earlier, later) => {earlier, later}
    case NumericDifference(greater, lesser, _) => {greater, lesser}
    case AllOf(operands) => RefsOfAll(operands)
    case AnyOneOf(operands) => RefsOfAll(operands)
    case Negation(operand) => Refs(operand)
    case Exclusive(first, second) => Refs(first) + Refs(second)
    case Conditional(premise, conclusion) => Refs(premise) + Refs(conclusion)
    case Equivalence(first, second) => Refs(first) + Refs(second)
    case Between(operands, _, _) => RefsOfAll(operands)
  }

  function RefsOfAll(ts: seq<Template>): set<ItemRef>
    decreases ts, 1
  {
    if ts == [] then {} else Refs(ts[0]) + RefsOfAll(ts[1..])
  }

  // ----- the validation walk -----

  predicate LeafIsNumeric(t: Template) {
    t.NumericDifference?
  }

  /** An association of an item with itself or with one of its own category. */
  predicate LeafIsIdle(t: Template) {
    t.Association? && t.left.category == t.right.category
  }

  function Size(t: Template): nat
    decreases t, 0
  {
    match t
    case AllOf(operands) => 1 + SizeOfAll(operands)
    case AnyOneOf(operands) => 1 + SizeOfAll(operands)
    case Between(operands, _, _) => 1 + SizeOfAll(operands)
    case Negation(operand) => 1 + Size(operand)
    case Exclusive(first, second) => 1 + Size(first) + Size(second)
    case Equivalence(first, second) => 1 + Size(first) + Size(second)
    case Conditional(premise, conclusion) => 1 + Size(premise) + Size(conclusion)
    case _ => 1
  }

  function SizeOfAll(ts: seq<Template>): nat
    decreases ts, 1
  {
    if ts == [] then 0 else Size(ts[0]) + SizeOfAll(ts[1..])
  }

  lemma {:induction false} SizesAdd(ts: seq<Template>, us: seq<Template>)
    ensures SizeOfAll(ts + us) == SizeOfAll(ts) + SizeOfAll(us)
  {
    if ts == [] {
      assert ts + us == us;
    } else {
      SizesAdd(ts[1..], us);
      assert (ts + us)[1..] == ts[1..] + us;
    }
  }

  lemma {:induction false} SizeOfPair(t: Template, u: Template)
    ensures SizeOfAll([t, u]) == Size(t) + Size(u)
  {
    assert [t, u][1..] == [u] && [u][1..] == [];
    assert SizeOfAll([u]) == Size(u);
  }

  lemma {:induction false} ChildrenAreSmaller(t: Template)
    ensures SizeOfAll(Children(t)) == Size(t) - 1
  {
    match t
    case Negation(operand) => assert [operand][1..] == [];
    case Exclusive(first, second) => SizeOfPair(first, second);
    case Equivalence(first, second) => SizeOfPair(first, second);
    case Conditional(first, second) => SizeOfPair(first, second);
    case _ =>
  }

  /** Some node of the listed templates is one of the kind looked for. */
  predicate AnyNode(ts: seq<Template>, numeric: bool)
    decreases SizeOfAll(ts), |ts|
  {
    if ts == [] then false
    else
      ChildrenAreSmaller(ts[0]);
      SizesAdd(ts[..1], ts[1..]);
      assert ts[..1] + ts[1..] == ts;
      assert ts[..1][1..] == [];
      (if numeric then LeafIsNumeric(ts[0]) else LeafIsIdle(ts[0]))
      || AnyNode(Children(ts[0]), numeric) || AnyNode(ts[1..], numeric)
  }

  lemma {:induction false} AnyNodeSplits(ts: seq<Template>, us: seq<Template>, numeric: bool)
    ensures AnyNode(ts + us, numeric) <==> AnyNode(ts, numeric) || AnyNode(us, numeric)
  {
    if ts == [] {
      assert ts + us == us;
    } else {
      AnyNodeSplits(ts[1..], us, numeric);
      assert (ts + us)[1..] == ts[1..] + us;
    }
  }

  lemma {:induction false} AnyNodeOfLast(ts: seq<Template>, numeric: bool)
    requires ts != []
    ensures var n := |ts| - 1;
      AnyNode(ts, numeric) <==>
        (if numeric then LeafIsNumeric(ts[n]) else LeafIsIdle(ts[n])) || AnyNode(ts[..n] + Children(ts[n]), numeric)
  {
    var n := |ts| - 1;
    assert ts == ts[..n] + [ts[n]];
    AnyNodeSplits(ts[..n], [ts[n]], numeric);
    AnyNodeSplits(ts[..n], Children(ts[n]), numeric);
    assert [ts[n]][1..] == [];
  }

  /** The explicit-stack walk of `_validate_draft` over one clue. */
  method Walk(t: Template) returns (numeric: bool, idle: bool)
    ensures numeric == AnyNode([t], true)
    ensures idle == AnyNode([t], false)
  {
    hide AnyNode, SizeOfAll;
    var stack := [t];
    numeric, idle := false, false;
    while stack != []
      invariant AnyNode([t], true) == (numeric || AnyNode(stack, true))
      invariant AnyNode([t], false) == (idle || AnyNode(stack, false))
      decreases SizeOfAll(stack)
    {
      var n := |stack| - 1;
      var top := stack[n];
      AnyNodeOfLast(stack, true);
      AnyNodeOfLast(stack, false);
      PopShrinks(stack);
      stack := stack[..n] + Children(top);
      if LeafIsNumeric(top) {
        numeric := true;
      }
      if LeafIsIdle(top) {
        idle := true;
      }
    }
    NothingLeft();
  }

  lemma {:induction false} PopShrinks(stack: seq<Template>)
    requires stack != []
    ensures var n := |stack| - 1;
      SizeOfAll(stack[..n] + Children(stack[n])) < SizeOfAll(stack)
  {
    var n := |stack| - 1;
    assert stack == stack[..n] + [stack[n]];
    SizesAdd(stack[..n], [stack[n]]);
    SizesAdd(stack[..n], Children(stack[n]));
    ChildrenAreSmaller(stack[n]);
    assert [stack[n]][1..] == [];
  }

  lemma {:induction false} NothingLeft()
    ensures !AnyNode([], true) && !AnyNode([], false)
  {
  }

  // ----- compilation -----

  function Reference(ref: ItemRef, variables: map<ItemRef, VariableId>): NumericExpression
    requires ref in variables
  {
    VariableReference(variables[ref])
  }

  /** `_compile_predicate` */
  function Compile(t: Template, variables: map<ItemRef, VariableId>): BooleanExpression
    requires Refs(t) <= variables.Keys
    decreases t, 0
  {
    match t
    case Association(left, right, same) =>
      Comparison(if same then Equal else NotEqual, Reference(left, variables), Reference(right, variables))
    case Ordering(earlier, later) =>
      Comparison(LessThan, Reference(earlier, variables), Reference(later, variables))
    case NumericDifference(greater, lesser, difference) =>
      Comparison(Equal, Subtract(Reference(greater, variables), Reference(lesser, variables)), Constant(Exact(difference)))
    case AllOf(operands) => And(CompileAll(operands, variables))
    case AnyOneOf(operands) => Or(CompileAll(operands, variables))
    case Negation(operand) => Not(Compile(operand, variables))
    case Exclusive(first, second) => Xor(Compile(first, variables), Compile(second, variables))
    case Conditional(premise, conclusion) => Implies(Compile(premise, variables), Compile(conclusion, variables))
    case Equivalence(first, second) => Equivalent(Compile(first, variables), Compile(second, variables))
    case Between(operands, minimum, maximum) => Cardinality(CompileAll(operands, variables), minimum, maximum)
  }

  function CompileAll(ts: seq<Template>, variables: map<ItemRef, VariableId>): seq<BooleanExpression>
    requires RefsOfAll(ts) <= variables.Keys
    decreases ts, 1
  {
    if ts == [] then [] else [Compile(ts[0], variables)] + CompileAll(ts[1..], variables)
  }

  // ----- the stated meaning -----

  /** Where each item stands: its anchor row, counted from the first. */
  type Placement = map<ItemRef, nat>

  function NumberAtRow(numbers: seq<Option<Number>>, row: nat): real {
    if row < |numbers| && numbers[row].Some? then numbers[row].value.AsReal() else 0.0
  }

  /** What a template says about a placement. */
  predicate Means(t: Template, place: Placement, numbers: seq<Option<Number>>)
    requires Refs(t) <= place.Keys
    decreases t, 0
  {
    match t
    case Association(left, right, same) => (place[left] == place[right]) == same
    case Ordering(earlier, later) => place[earlier] < place[later]
    case NumericDifference(greater, lesser, difference) =>
      NumberAtRow(numbers, place[greater]) - NumberAtRow(numbers, place[lesser]) == difference.AsReal()
    case AllOf(operands) => HowMany(operands, place, numbers) == |operands|
    case AnyOneOf(operands) => HowMany(operands, place, numbers) > 0
    case Negation(operand) => !Means(operand, place, numbers)
    case Exclusive(first, second) => Means(first, place, numbers) != Means(second, place, numbers)
    case Conditional(premise, conclusion) => Means(premise, place, numbers) ==> Means(conclusion, place, numbers)
    case Equivalence(first, second) => Means(first, place, numbers) == Means(second, place, numbers)
    case Between(operands, minimum, maximum) => minimum <= HowMany(operands, place, numbers) <= maximum
  }

  /** How many of the templates are true. */
  function HowMany(ts: seq<Template>, place: Placement, numbers: seq<Option<Number>>): (n: nat)
    requires RefsOfAll(ts) <= place.Keys
    ensures n <= |ts|
    decreases ts, 1
  {
    if ts == [] then 0
    else HowMany(ts[1..], place, numbers) + (if Means(ts[0], place, numbers) then 1 else 0)
  }

  /** The reading assigns every item the identifier of its row. */
  ghost predicate Shows(variables: map<ItemRef, VariableId>, place: Placement, anchor: seq<DomainValue>,
      values: Assignment) {
    && place.Keys == variables.Keys
    && forall ref :: ref in variables ==>
         place[ref] < |anchor| && variables[ref] in values && values[variables[ref]] == anchor[place[ref]].id
  }

  /** Rows are numbered in order, and carry numbers where the template needs them. */
  ghost predicate Suits(t: Template, anchor: seq<DomainValue>) {
    && NoDuplicates(ValueIds(anchor))
    && (forall k :: 0 <= k < |anchor| ==> anchor[k].ordinal == Some(k + 1))
    && (AnyNode([t], true) ==> AllRationals(NumericOf(anchor)))
  }

  lemma {:induction false} SuitsParts(t: Template, anchor: seq<DomainValue>)
    requires Suits(t, anchor)
    ensures forall child :: child in Children(t) ==> Suits(child, anchor)
  {
    assert [t][1..] == [];
    forall child | child in Children(t) ensures AnyNode([child], true) ==> AnyNode(Children(t), true) {
      NodeOfMember(Children(t), child);
    }
  }

  lemma {:induction false} NodeOfMember(ts: seq<Template>, t: Template)
    requires t in ts
    ensures AnyNode([t], true) ==> AnyNode(ts, true)
  {
    var i :| 0 <= i < |ts| && ts[i] == t;
    assert ts == ts[..i] + ([t] + ts[i + 1..]);
    AnyNodeSplits(ts[..i], [t] + ts[i + 1..], true);
    AnyNodeSplits([t], ts[i + 1..], true);
  }

  lemma {:induction false} RowLookup(ref: ItemRef, variables: map<ItemRef, VariableId>, place: Placement,
      anchor: seq<DomainValue>, values: Assignment)
    requires ref in variables && Shows(variables, place, anchor, values) && NoDuplicates(ValueIds(anchor))
    requires forall k :: 0 <= k < |anchor| ==> anchor[k].ordinal == Some(k + 1)
    ensures var x := values[variables[ref]];
      && x in Ordinals(anchor) && Ordinals(anchor)[x] == place[ref] + 1
      && (anchor[place[ref]].numeric.Some? ==>
            x in Numbers(anchor) && Numbers(anchor)[x].AsReal() == NumberAtRow(NumericOf(anchor), place[ref]))
  {
    AnchorLookup(anchor, place[ref]);
  }

  lemma {:induction false} SameRowSameId(anchor: seq<DomainValue>, i: nat, j: nat)
    requires NoDuplicates(ValueIds(anchor)) && i < |anchor| && j < |anchor|
    ensures anchor[i].id == anchor[j].id <==> i == j
  {
    assert ValueIds(anchor)[i] == anchor[i].id && ValueIds(anchor)[j] == anchor[j].id;
  }

  lemma {:induction false} PairMeans(relation: Relation, l: ItemRef, r: ItemRef, variables: map<ItemRef, VariableId>,
      place: Placement,
                  anchor: seq<DomainValue>, values: Assignment)
    requires
      && l in variables
      && r in variables
      && Shows(variables, place, anchor, values)
      && NoDuplicates(ValueIds(anchor))
    requires forall k :: 0 <= k < |anchor| ==> anchor[k].ordinal == Some(k + 1)
    requires relation.Equal? || relation.NotEqual? || relation.LessThan?
    ensures JudgeComparison(relation, Reference(l, variables), Reference(r, variables), Values(values, Ordinals(anchor), Numbers(anchor)))
      == Some(Compare(relation, place[l], place[r]))
  {
    hide Ordinals, Numbers;
    SameRowSameId(anchor, place[l], place[r]);
    RowLookup(l, variables, place, anchor, values);
    RowLookup(r, variables, place, anchor, values);
  }

  lemma {:induction false} DifferenceMeans(g: ItemRef, l: ItemRef, difference: Number,
      variables: map<ItemRef, VariableId>, place: Placement,
                        anchor: seq<DomainValue>, values: Assignment)
    requires
      && g in variables
      && l in variables
      && Shows(variables, place, anchor, values)
      && NoDuplicates(ValueIds(anchor))
    requires forall k :: 0 <= k < |anchor| ==> anchor[k].ordinal == Some(k + 1)
    requires AllRationals(NumericOf(anchor))
    ensures JudgeComparison(Equal, Subtract(Reference(g, variables), Reference(l, variables)), Constant(Exact(difference)),
                            Values(values, Ordinals(anchor), Numbers(anchor)))
      == Some(NumberAtRow(NumericOf(anchor), place[g]) - NumberAtRow(NumericOf(anchor), place[l]) == difference.AsReal())
  {
    hide Ordinals, Numbers, NumberAtRow;
    RowLookup(g, variables, place, anchor, values);
    RowLookup(l, variables, place, anchor, values);
    assert NumericOf(anchor)[place[g]].Some? && NumericOf(anchor)[place[l]].Some?;
    var reading := Values(values, Ordinals(anchor), Numbers(anchor));
    assert NumberOf(Reference(g, variables), reading) == Some(NumberAtRow(NumericOf(anchor), place[g]));
    assert NumberOf(Reference(l, variables), reading) == Some(NumberAtRow(NumericOf(anchor), place[l]));
  }

  lemma {:induction false} LeafMeans(t: Template, variables: map<ItemRef, VariableId>, place: Placement,
      anchor: seq<DomainValue>, values: Assignment)
    requires t.Association? || t.Ordering? || t.NumericDifference?
    requires Refs(t) <= variables.Keys && Shows(variables, place, anchor, values) && Suits(t, anchor)
    ensures Judge(Compile(t, variables), Values(values, Ordinals(anchor), Numbers(anchor)))
      == Some(Means(t, place, NumericOf(anchor)))
  {
    hide Ordinals, Numbers, NumberAtRow, JudgeComparison, Shows;
    ShownKeys(variables, place, anchor, values);
    match t
    case Association(left, right, same) =>
      assert left in Refs(t) && right in Refs(t);
      PairMeans(if same then Equal else NotEqual, left, right, variables, place, anchor, values);
    case Ordering(earlier, later) =>
      assert earlier in Refs(t) && later in Refs(t);
      PairMeans(LessThan, earlier, later, variables, place, anchor, values);
    case NumericDifference(greater, lesser, difference) =>
      assert greater in Refs(t) && lesser in Refs(t);
      DifferenceMeans(greater, lesser, difference, variables, place, anchor, values);
  }

  lemma {:induction false} ShownKeys(variables: map<ItemRef, VariableId>, place: Placement, anchor: seq<DomainValue>,
      values: Assignment)
    requires Shows(variables, place, anchor, values)
    ensures place.Keys == variables.Keys
  {
  }

  /** A compiled template is true, to the evaluators, exactly when its stated meaning is; and evaluating it
      never raises. */
  lemma {:induction false} CompiledMeans(t: Template, variables: map<ItemRef, VariableId>, place: Placement,
                                         anchor: seq<DomainValue>, values: Assignment)
    requires Refs(t) <= variables.Keys == place.Keys && Shows(variables, place, anchor, values) && Suits(t, anchor)
    ensures Judge(Compile(t, variables), Values(values, Ordinals(anchor), Numbers(anchor)))
      == Some(Means(t, place, NumericOf(anchor)))
    decreases t, 0
  {
    hide Judge, Compile, Means, Suits, Shows, Ordinals, Numbers;
    if t.AllOf? || t.AnyOneOf? || t.Between? || t.Negation? {
      GroupCompiledMeans(t, variables, place, anchor, values);
    } else if t.Exclusive? || t.Conditional? || t.Equivalence? {
      PairCompiledMeans(t, variables, place, anchor, values);
    } else {
      LeafMeans(t, variables, place, anchor, values);
    }
  }

  lemma {:induction false} GroupCompiledMeans(t: Template, variables: map<ItemRef, VariableId>, place: Placement,
                                              anchor: seq<DomainValue>, values: Assignment)
    requires t.AllOf? || t.AnyOneOf? || t.Between? || t.Negation?
    requires Refs(t) <= variables.Keys == place.Keys && Shows(variables, place, anchor, values) && Suits(t, anchor)
    ensures Judge(Compile(t, variables), Values(values, Ordinals(anchor), Numbers(anchor)))
      == Some(Means(t, place, NumericOf(anchor)))
    decreases t, 0, 0
  {
    hide Suits, Shows, Ordinals, Numbers, JudgeComparison, NumberAtRow;
    SuitsParts(t, anchor);
    match t
    case Negation(operand) => assert operand in Children(t); CompiledMeans(operand, variables, place, anchor, values);
    case AllOf(operands) => AllCompiledMean(operands, variables, place, anchor, values);
    case AnyOneOf(operands) => AllCompiledMean(operands, variables, place, anchor, values);
    case Between(operands, _, _) => AllCompiledMean(operands, variables, place, anchor, values);
  }

  lemma {:induction false} PairCompiledMeans(t: Template, variables: map<ItemRef, VariableId>, place: Placement,
                                             anchor: seq<DomainValue>, values: Assignment)
    requires t.Exclusive? || t.Conditional? || t.Equivalence?
    requires Refs(t) <= variables.Keys == place.Keys && Shows(variables, place, anchor, values) && Suits(t, anchor)
    ensures Judge(Compile(t, variables), Values(values, Ordinals(anchor), Numbers(anchor)))
      == Some(Means(t, place, NumericOf(anchor)))
    decreases t, 0, 1
  {
    hide Suits, Shows, Ordinals, Numbers, JudgeComparison, NumberAtRow;
    match t
    case Exclusive(first, second) => BothCompiledMean(t, first, second, variables, place, anchor, values);
    case Conditional(first, second) => BothCompiledMean(t, first, second, variables, place, anchor, values);
    case Equivalence(first, second) => BothCompiledMean(t, first, second, variables, place, anchor, values);
  }

  lemma {:induction false} BothCompiledMean(t: Template, first: Template, second: Template,
      variables: map<ItemRef, VariableId>,
                                            place: Placement, anchor: seq<DomainValue>, values: Assignment)
    requires Children(t) == [first, second] && first < t && second < t
    requires Refs(first) <= variables.Keys == place.Keys && Refs(second) <= variables.Keys
    requires Shows(variables, place, anchor, values) && Suits(t, anchor)
    ensures Judge(Compile(first, variables), Values(values, Ordinals(anchor), Numbers(anchor)))
      == Some(Means(first, place, NumericOf(anchor)))
    ensures Judge(Compile(second, variables), Values(values, Ordinals(anchor), Numbers(anchor)))
      == Some(Means(second, place, NumericOf(anchor)))
    decreases t, 0, 0
  {
    hide Suits, Shows, Ordinals, Numbers;
    SuitsParts(t, anchor);
    assert first in Children(t) && second in Children(t);
    CompiledMeans(first, variables, place, anchor, values);
    CompiledMeans(second, variables, place, anchor, values);
  }

  lemma {:induction false} AllCompiledMean(ts: seq<Template>, variables: map<ItemRef, VariableId>, place: Placement,
                                           anchor: seq<DomainValue>, values: Assignment)
    requires RefsOfAll(ts) <= variables.Keys && Shows(variables, place, anchor, values)
    requires place.Keys == variables.Keys
    requires forall t :: t in ts ==> Suits(t, anchor)
    ensures var es, reading := CompileAll(ts, variables), Values(values, Ordinals(anchor), Numbers(anchor));
      var n := HowMany(ts, place, NumericOf(anchor));
      && JudgeAll(es, reading) == Some(n == |ts|)
      && JudgeAny(es, reading) == Some(n > 0)
      && JudgeCount(es, reading) == Some(n)
    decreases ts, 1
  {
    hide Suits, Shows, Ordinals, Numbers;
    if ts != [] {
      CompiledMeans(ts[0], variables, place, anchor, values);
      AllCompiledMean(ts[1..], variables, place, anchor, values);
      assert CompileAll(ts, variables)[1..] == CompileAll(ts[1..], variables);
    }
  }

  /** A compiled template is admitted by the specification and mentions an item. */
  lemma {:induction false} CompiledIsAdmitted(t: Template, variables: map<ItemRef, VariableId>, complete: bool)
    requires WellFormed(t) && Refs(t) <= variables.Keys && (AnyNode([t], true) ==> complete)
    ensures Admitted(Compile(t, variables), variables.Values, true, complete)
    ensures BooleanVariables(Compile(t, variables)) != {}
    decreases t, 0
  {
    assert [t][1..] == [];
    match t
    case AllOf(operands) => AllCompiledAdmitted(operands, variables, complete);
    case AnyOneOf(operands) => AllCompiledAdmitted(operands, variables, complete);
    case Between(operands, _, _) => AllCompiledAdmitted(operands, variables, complete);
    case Negation(operand) => NodeOfMember(Children(t), operand); CompiledIsAdmitted(operand, variables, complete);
    case Exclusive(first, second) => PairIsAdmitted(t, first, second, variables, complete);
    case Conditional(first, second) => PairIsAdmitted(t, first, second, variables, complete);
    case Equivalence(first, second) => PairIsAdmitted(t, first, second, variables, complete);
    case Association(left, right, _) =>
      assert variables[left] in variables.Values && variables[right] in variables.Values;
      assert variables[left] in BooleanVariables(Compile(t, variables));
    case Ordering(left, right) =>
      assert variables[left] in variables.Values && variables[right] in variables.Values;
      assert variables[left] in BooleanVariables(Compile(t, variables));
    case NumericDifference(left, right, _) =>
      assert variables[left] in variables.Values && variables[right] in variables.Values;
      assert variables[left] in NumericVariables(Reference(left, variables));
      assert variables[left] in BooleanVariables(Compile(t, variables));
  }

  lemma {:induction false} PairIsAdmitted(t: Template, first: Template, second: Template,
      variables: map<ItemRef, VariableId>, complete: bool)
    requires Children(t) == [first, second] && WellFormed(first) && WellFormed(second)
    requires Refs(first) <= variables.Keys && Refs(second) <= variables.Keys && (AnyNode([t], true) ==> complete)
    requires first < t && second < t
    ensures Admitted(Compile(first, variables), variables.Values, true, complete)
    ensures Admitted(Compile(second, variables), variables.Values, true, complete)
    ensures BooleanVariables(Compile(first, variables)) != {}
    decreases t, 0, 0
  {
    assert [t][1..] == [];
    NodeOfMember(Children(t), first);
    NodeOfMember(Children(t), second);
    CompiledIsAdmitted(first, variables, complete);
    CompiledIsAdmitted(second, variables, complete);
  }

  lemma {:induction false} AllCompiledAdmitted(ts: seq<Template>, variables: map<ItemRef, VariableId>, complete: bool)
    requires AllWellFormed(ts) && RefsOfAll(ts) <= variables.Keys && (AnyNode(ts, true) ==> complete)
    ensures AllAdmitted(CompileAll(ts, variables), variables.Values, true, complete)
    ensures ts != [] ==> BooleanVariablesOfAll(CompileAll(ts, variables)) != {}
    decreases ts, 1
  {
    if ts != [] {
      NodeOfMember(ts, ts[0]);
      assert ts == ts[..1] + ts[1..] && ts[..1] == [ts[0]];
      AnyNodeSplits(ts[..1], ts[1..], true);
      CompiledIsAdmitted(ts[0], variables, complete);
      AllCompiledAdmitted(ts[1..], variables, complete);
      assert CompileAll(ts, variables)[1..] == CompileAll(ts[1..], variables);
    }
  }
}

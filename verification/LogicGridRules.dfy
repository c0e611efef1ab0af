/** The Logic Grid human rules: what each proposes in a state. */
module LogicGridRules {
  import opened Prelude
  import opened Domain
  import opened State
  import opened Events
  import opened Sorting
  import opened Rules
  import opened Grid
  import opened LogicGrid

  datatype Technique = Association | CategoryBijection | Ordering | NumericRelation | CompoundLogic {
    function Rank(): nat {
      match this
      case Association => 10
      case CategoryBijection => 20
      case Ordering => 30
      case NumericRelation => 40
      case CompoundLogic => 50
    }

    /** The rule identifiers in the order of their text. */
    function RuleId(): Identifier {
      match this
      case Association => 1
      case CategoryBijection => 2
      case CompoundLogic => 3
      case NumericRelation => 4
      case Ordering => 5
    }

    function Reference(): RuleReference {
      RuleReference(RuleId(), 0, [LOGIC_GRID_FAMILY], Rank())
    }
  }

  predicate BothVariables(e: BooleanExpression) {
    e.Comparison? && e.left.VariableReference? && e.right.VariableReference?
  }

  function TechniqueOf(e: BooleanExpression): Technique {
    if !e.Comparison? then CompoundLogic
    else if e.relation.Equal? || e.relation.NotEqual?
    then if BothVariables(e) then Association else NumericRelation
    else Ordering
  }

  /** One deduction a rule proposes. */
  datatype Finding = Finding(conclusion: Atom, premises: seq<Atom>, constraint: ConstraintId)

  // ----- reading the state -----

  /** The variable's candidates. */
  function Possible(state: PuzzleState, v: VariableId): set<ValueId> {
    if v in state.candidates then state.candidates[v] else {}
  }

  /** `_absence_premise`: an asserted atom that says `v` is not `x`. */
  function Absence(v: VariableId, x: ValueId, state: PuzzleState): Option<Atom> {
    if ExclusionAtom(v, x) in state.asserted then Some(ExclusionAtom(v, x))
    else
      var others := AssertedValues(v, state.asserted) - {x};
      if others == {} then None else Some(AssignmentAtom(v, Least(others)))
  }

  /** The absence premises of several values of one variable, where there are any. */
  function ValueAbsences(v: VariableId, xs: seq<ValueId>, state: PuzzleState): seq<Atom> {
    if xs == [] then []
    else Listed(Absence(v, xs[0], state)) + ValueAbsences(v, xs[1..], state)
  }

  function Listed(atom: Option<Atom>): seq<Atom> {
    if atom.Some? then [atom.value] else []
  }

  // ----- lists of findings, built item by item -----

  function Collected<T>(items: seq<T>, f: T -> seq<Finding>): seq<Finding> {
    if items == [] then [] else Collected(items[..|items| - 1], f) + f(items[|items| - 1])
  }

  lemma {:induction false} CollectedExtends<T>(items: seq<T>, i: nat, f: T -> seq<Finding>)
    requires i < |items|
    ensures Collected(items[..i + 1], f) == Collected(items[..i], f) + f(items[i])
  {
    assert items[..i + 1][..i] == items[..i];
  }

  // ----- direct association -----

  /** What an equation of two variables says about `v`, given the candidates of the other. */
  function Matches(id: ConstraintId, v: VariableId, other: VariableId, state: PuzzleState): seq<Finding> {
    var domain := Possible(state, v);
    var shared := domain * Possible(state, other);
    if |domain| > 1 && |shared| == 1 then
      var conclusion := AssignmentAtom(v, TheOnly(shared));
      if |Possible(state, other)| == 1 then
        [Finding(conclusion, [AssignmentAtom(other, TheOnly(Possible(state, other)))], id)]
      else
        var missing := Ascending(domain - shared);
        var premises := ValueAbsences(other, missing, state);
        if |premises| < |missing| then [] else [Finding(conclusion, premises, id)]
    else if |shared| > 1 then
      Collected(Ascending(domain - shared), EachUnshared(id, v, other, state))
    else []
  }

  function Unshared(id: ConstraintId, v: VariableId, other: VariableId, x: ValueId, state: PuzzleState): seq<Finding> {
    var premise := Absence(other, x, state);
    if premise.Some? then [Finding(ExclusionAtom(v, x), [premise.value], id)] else []
  }

  function EachUnshared(id: ConstraintId, v: VariableId, other: VariableId,
      state: PuzzleState): ValueId -> seq<Finding> {
    x => Unshared(id, v, other, x, state)
  }

  /** What a disequation says about `target` once the other variable is fixed. */
  function Mismatch(id: ConstraintId, fixed: VariableId, target: VariableId, state: PuzzleState): seq<Finding> {
    if |Possible(state, fixed)| == 1 && |Possible(state, target)| > 1 then
      var x := TheOnly(Possible(state, fixed));
      if x in Possible(state, target) then [Finding(ExclusionAtom(target, x), [AssignmentAtom(fixed, x)], id)] else []
    else []
  }

  function Associations(c: Constraint, state: PuzzleState): seq<Finding> {
    if !c.ArithmeticConstraint? || c.id !in state.active || !TechniqueOf(c.expression).Association? then []
    else
      var left, right := c.expression.left.variable, c.expression.right.variable;
      if c.expression.relation.Equal?
      then Matches(c.id, left, right, state) + Matches(c.id, right, left, state)
      else Mismatch(c.id, left, right, state) + Mismatch(c.id, right, left, state)
  }

  // ----- category bijection -----

  /** A row taken by `fixed` is not available to `target`. */
  function Occupied(id: ConstraintId, fixed: VariableId, target: VariableId, state: PuzzleState): seq<Finding> {
    if |Possible(state, fixed)| != 1 || target == fixed then []
    else
      var x := TheOnly(Possible(state, fixed));
      if x in Possible(state, target) then [Finding(ExclusionAtom(target, x), [AssignmentAtom(fixed, x)], id)] else []
  }

  function OccupiedBy(id: ConstraintId, vs: seq<VariableId>, fixed: VariableId, state: PuzzleState): seq<Finding> {
    Collected(vs, EachOccupied(id, fixed, state))
  }

  function EachOccupied(id: ConstraintId, fixed: VariableId, state: PuzzleState): VariableId -> seq<Finding> {
    target => Occupied(id, fixed, target, state)
  }

  function EachFixed(id: ConstraintId, vs: seq<VariableId>, state: PuzzleState): VariableId -> seq<Finding> {
    fixed => OccupiedBy(id, vs, fixed, state)
  }

  function Supporters(vs: seq<VariableId>, x: ValueId, state: PuzzleState): seq<VariableId> {
    if vs == [] then []
    else (if x in Possible(state, vs[0]) then [vs[0]] else []) + Supporters(vs[1..], x, state)
  }

  /** The absence premises of one value for every listed variable but the target. */
  function OtherAbsences(vs: seq<VariableId>, target: VariableId, x: ValueId, state: PuzzleState): seq<Atom> {
    if vs == [] then []
    else
      OtherAbsences(vs[..|vs| - 1], target, x, state)
        + (if vs[|vs| - 1] == target then [] else Listed(Absence(vs[|vs| - 1], x, state)))
  }

  /** A row only one item of the category can still take. */
  function Hidden(id: ConstraintId, vs: seq<VariableId>, x: ValueId, state: PuzzleState): seq<Finding> {
    var supporters := Supporters(vs, x, state);
    if |supporters| != 1 || |Possible(state, supporters[0])| == 1 then []
    else
      var premises := OtherAbsences(vs, supporters[0], x, state);
      if |premises| != |vs| - 1 then [] else [Finding(AssignmentAtom(supporters[0], x), premises, id)]
  }

  function EachHidden(id: ConstraintId, vs: seq<VariableId>, state: PuzzleState): ValueId -> seq<Finding> {
    x => Hidden(id, vs, x, state)
  }

  function AllValues(vs: seq<VariableId>, state: PuzzleState): set<ValueId> {
    set v, x | v in vs && x in Possible(state, v) :: x
  }

  function Bijections(c: Constraint, state: PuzzleState): seq<Finding> {
    if !c.AllDifferentConstraint? || c.id !in state.active then []
    else
      Collected(c.variables, EachFixed(c.id, c.variables, state))
        + Collected(Ascending(AllValues(c.variables, state)), EachHidden(c.id, c.variables, state))
  }

  /** The first inner loop of the bijection rule, for one settled item. */
  method FindRowTaken(id: ConstraintId, vs: seq<VariableId>, fixed: VariableId, state: PuzzleState)
    returns (found: seq<Finding>)
    requires |Possible(state, fixed)| == 1
    ensures found == OccupiedBy(id, vs, fixed, state)
  {
    ghost var each := EachOccupied(id, fixed, state);
    var x := TheOnly(Possible(state, fixed));
    found := [];
    for j := 0 to |vs|
      invariant found == Collected(vs[..j], each)
    {
      CollectedExtends(vs, j, each);
      if vs[j] != fixed && x in Possible(state, vs[j]) {
        found := found + [Finding(ExclusionAtom(vs[j], x), [AssignmentAtom(fixed, x)], id)];
      }
    }
    assert vs[..|vs|] == vs;
  }

  /** The first inner loop of the bijection rule. */
  method FindOccupied(id: ConstraintId, vs: seq<VariableId>, state: PuzzleState) returns (found: seq<Finding>)
    ensures found == Collected(vs, EachFixed(id, vs, state))
  {
    hide Possible, OccupiedBy, Occupied;
    ghost var each := EachFixed(id, vs, state);
    found := [];
    for i := 0 to |vs|
      invariant found == Collected(vs[..i], each)
    {
      CollectedExtends(vs, i, each);
      if |Possible(state, vs[i])| == 1 {
        var taken := FindRowTaken(id, vs, vs[i], state);
        found := found + taken;
      } else {
        UnsettledTakesNothing(id, vs, vs[i], state);
      }
    }
    assert vs[..|vs|] == vs;
  }

  lemma {:induction false} UnsettledTakesNothing(id: ConstraintId, vs: seq<VariableId>, fixed: VariableId,
      state: PuzzleState)
    requires |Possible(state, fixed)| != 1
    ensures OccupiedBy(id, vs, fixed, state) == []
  {
    NothingCollected(vs, EachOccupied(id, fixed, state));
  }

  lemma {:induction false} NothingCollected<T>(items: seq<T>, f: T -> seq<Finding>)
    requires forall i :: 0 <= i < |items| ==> f(items[i]) == []
    ensures Collected(items, f) == []
  {
    if items != [] {
      NothingCollected(items[..|items| - 1], f);
    }
  }

  /** The second inner loop of the bijection rule. */
  method FindHidden(id: ConstraintId, vs: seq<VariableId>, state: PuzzleState) returns (found: seq<Finding>)
    ensures found == Collected(Ascending(AllValues(vs, state)), EachHidden(id, vs, state))
  {
    var values := Ascending(AllValues(vs, state));
    ghost var each := EachHidden(id, vs, state);
    found := [];
    for i := 0 to |values|
      invariant found == Collected(values[..i], each)
    {
      CollectedExtends(values, i, each);
      var supporters := Supporters(vs, values[i], state);
      if |supporters| == 1 && |Possible(state, supporters[0])| != 1 {
        var premises := PremisesFor(vs, supporters[0], values[i], state);
        if |premises| == |vs| - 1 {
          found := found + [Finding(AssignmentAtom(supporters[0], values[i]), premises, id)];
        }
      }
    }
    assert values[..|values|] == values;
  }

  method PremisesFor(vs: seq<VariableId>, target: VariableId, x: ValueId, state: PuzzleState)
    returns (premises: seq<Atom>)
    ensures premises == OtherAbsences(vs, target, x, state)
  {
    premises := [];
    for j := 0 to |vs|
      invariant premises == OtherAbsences(vs[..j], target, x, state)
    {
      assert vs[..j + 1][..j] == vs[..j];
      if vs[j] != target {
        var premise := Absence(vs[j], x, state);
        if premise.Some? {
          premises := premises + [premise.value];
        }
      }
    }
    assert vs[..|vs|] == vs;
  }

  // ----- order bounds -----

  function Metric(metrics: map<ValueId, int>, x: ValueId): int {
    if x in metrics then metrics[x] else 0
  }

  function Metrics(metrics: map<ValueId, int>, xs: set<ValueId>): set<int> {
    set x | x in xs :: Metric(metrics, x)
  }

  /** The greatest member, by the least of the negations. */
  function Greatest(s: set<int>): (m: int)
    requires s != {}
    ensures m in s
    ensures forall y :: y in s ==> y <= m
  {
    var negated := set y | y in s :: -y;
    assert forall y :: y in s ==> -y in negated;
    -Least(negated)
  }

  /** Left values with no room below, or above, the right ones; and right values likewise. */
  function OutOfBounds(relation: Relation, left: set<ValueId>, right: set<ValueId>, metrics: map<ValueId, int>)
    : (set<ValueId>, set<ValueId>)
    requires left != {} && right != {}
  {
    MetricsNonempty(metrics, left);
    MetricsNonempty(metrics, right);
    var ls, rs := Metrics(metrics, left), Metrics(metrics, right);
    match relation
    case LessThan =>
      (set x | x in left && Metric(metrics, x) >= Greatest(rs), set y | y in right && Metric(metrics, y) <= Least(ls))
    case LessThanOrEqual =>
      (set x | x in left && Metric(metrics, x) > Greatest(rs), set y | y in right && Metric(metrics, y) < Least(ls))
    case GreaterThan =>
      (set x | x in left && Metric(metrics, x) <= Least(rs), set y | y in right && Metric(metrics, y) >= Greatest(ls))
    case GreaterThanOrEqual =>
      (set x | x in left && Metric(metrics, x) < Least(rs), set y | y in right && Metric(metrics, y) > Greatest(ls))
    case _ => ({}, {})
  }

  lemma {:induction false} MetricsNonempty(metrics: map<ValueId, int>, xs: set<ValueId>)
    requires xs != {}
    ensures Metrics(metrics, xs) != {}
  {
    var x := AnyOf(xs);
    assert Metric(metrics, x) in Metrics(metrics, xs);
  }

  /** A value has a partner: some candidate of the other variable stands in the relation to it. */
  predicate Partnered(relation: Relation, x: ValueId, others: set<ValueId>, metrics: map<ValueId, int>, asLeft: bool) {
    exists y :: y in others
      && (if asLeft then Compare(relation, Metric(metrics, x), Metric(metrics, y))
          else Compare(relation, Metric(metrics, y), Metric(metrics, x)))
  }

  /** The bounds are exact: a value is excluded if and only if it has no partner on the other side. */
  lemma {:induction false} BoundsAreExact(relation: Relation, left: set<ValueId>, right: set<ValueId>,
      metrics: map<ValueId, int>)
    requires left != {} && right != {} && !relation.Equal? && !relation.NotEqual?
    ensures var (ls, rs) := OutOfBounds(relation, left, right, metrics);
      && (forall x :: x in ls <==> x in left && !Partnered(relation, x, right, metrics, true))
      && (forall y :: y in rs <==> y in right && !Partnered(relation, y, left, metrics, false))
  {
    Extremes(metrics, left);
    Extremes(metrics, right);
  }

  /** The extreme metrics are reached, and bound every other. */
  lemma {:induction false} Extremes(metrics: map<ValueId, int>, xs: set<ValueId>)
    requires xs != {}
    ensures Metrics(metrics, xs) != {}
    ensures exists x :: x in xs && Metric(metrics, x) == Least(Metrics(metrics, xs))
    ensures exists x :: x in xs && Metric(metrics, x) == Greatest(Metrics(metrics, xs))
    ensures forall x :: x in xs ==> Least(Metrics(metrics, xs)) <= Metric(metrics, x) <= Greatest(Metrics(metrics, xs))
  {
    MetricsNonempty(metrics, xs);
    forall x | x in xs ensures Metric(metrics, x) in Metrics(metrics, xs) {
    }
  }

  /** One exclusion, on the given premises. */
  function Excluding(v: VariableId, premises: seq<Atom>, id: ConstraintId): ValueId -> seq<Finding> {
    x => [Finding(ExclusionAtom(v, x), premises, id)]
  }

  /** `_ordering_bound_exclusions` */
  function BoundFindings(c: Constraint, state: PuzzleState, metrics: map<ValueId, int>): seq<Finding>
    requires c.ArithmeticConstraint?
  {
    if !BothVariables(c.expression) then []
    else
      var v, w := c.expression.left.variable, c.expression.right.variable;
      var left, right := Possible(state, v), Possible(state, w);
      if v == w || |left| <= 1 || |right| <= 1 then []
      else
        var (ls, rs) := OutOfBounds(c.expression.relation, left, right, metrics);
        Collected(Ascending(ls), Excluding(v, [], c.id))
          + Collected(Ascending(rs), Excluding(w, [], c.id))
  }

  // ----- clue completion -----

  function Unresolved(e: BooleanExpression, state: PuzzleState): set<VariableId> {
    set v | v in BooleanVariables(e) && |Possible(state, v)| > 1
  }

  /** The values of the settled variables. */
  function Settled(vs: set<VariableId>, state: PuzzleState): Assignment {
    map v | v in vs && |Possible(state, v)| == 1 :: TheOnly(Possible(state, v))
  }

  function Trial(e: BooleanExpression, v: VariableId, x: ValueId, state: PuzzleState,
                 anchor: seq<DomainValue>): Option<bool> {
    Judge(e, Values(Settled(BooleanVariables(e) - {v}, state)[v := x], Ordinals(anchor), Numbers(anchor)))
  }

  /** The candidates of the unresolved variable under which the clue is true. */
  function Passing(e: BooleanExpression, v: VariableId, state: PuzzleState, anchor: seq<DomainValue>): (r: set<ValueId>)
    ensures forall x :: x in r <==> x in Possible(state, v) && Trial(e, v, x, state, anchor) == Some(true)
  {
    set x | x in Possible(state, v) && Trial(e, v, x, state, anchor) == Some(true)
  }

  function PremisesOf(vs: seq<VariableId>, state: PuzzleState): seq<Atom> {
    if vs == [] then []
    else
      var rest := PremisesOf(vs[1..], state);
      if |Possible(state, vs[0])| == 1 then [AssignmentAtom(vs[0], TheOnly(Possible(state, vs[0])))] + rest else rest
  }

  /** The one unresolved variable's values, split by trial evaluation. */
  function Completed(c: Constraint, v: VariableId, state: PuzzleState, anchor: seq<DomainValue>): seq<Finding>
    requires c.ArithmeticConstraint?
  {
    var premises := PremisesOf(Ascending(BooleanVariables(c.expression) - {v}), state);
    var valid := Passing(c.expression, v, state, anchor);
    if valid == {} then []
    else if |valid| == 1 then [Finding(AssignmentAtom(v, TheOnly(valid)), premises, c.id)]
    else Collected(Ascending(Possible(state, v) - valid), Excluding(v, premises, c.id))
  }

  predicate Concerns(technique: Technique, c: Constraint, state: PuzzleState) {
    c.ArithmeticConstraint? && c.id in state.active && TechniqueOf(c.expression) == technique
  }

  function Completions(technique: Technique, c: Constraint, state: PuzzleState,
      anchor: seq<DomainValue>): seq<Finding> {
    if !Concerns(technique, c, state) then []
    else
      var unresolved := Unresolved(c.expression, state);
      if |unresolved| == 2 && technique.Ordering? then BoundFindings(c, state, Ordinals(anchor))
      else if |unresolved| != 1 then []
      else Completed(c, TheOnly(unresolved), state, anchor)
  }

  /** Some trial evaluation raises. */
  predicate TrialRaises(technique: Technique, c: Constraint, state: PuzzleState, anchor: seq<DomainValue>) {
    && Concerns(technique, c, state) && |Unresolved(c.expression, state)| == 1
    && var v := TheOnly(Unresolved(c.expression, state));
       exists x :: x in Possible(state, v) && Trial(c.expression, v, x, state, anchor).None?
  }

  lemma {:induction false} AscendingStep(s: set<int>, i: nat)
    requires i < |Ascending(s)|
    ensures var r := Ascending(s);
      && r[i] in s && r[i] !in Elements(r[..i])
      && Elements(r[..i + 1]) == Elements(r[..i]) + {r[i]}
  {
    hide Ascending;
    var r := Ascending(s);
    var x := r[i];
    assert x in r;
    assert r[..i + 1] == r[..i] + [x];
    forall j | 0 <= j < i ensures r[..i][j] != x {
      assert r[j] < r[i];
    }
    assert x !in r[..i];
  }

  /** The inner loop of clue completion: sort the candidates into valid and invalid. */
  method TryValues(c: Constraint, v: VariableId, state: PuzzleState, anchor: seq<DomainValue>)
    returns (r: Result<seq<Finding>>)
    requires c.ArithmeticConstraint?
    ensures r.Err? <==> exists x :: x in Possible(state, v) && Trial(c.expression, v, x, state, anchor).None?
    ensures r.Ok? ==> r.value == Completed(c, v, state, anchor)
  {
    hide Trial, BooleanVariables, Possible, Elements, Ascending;
    var valid, invalid: set<ValueId> := {}, {};
    var values := Ascending(Possible(state, v));
    AscendingElements(Possible(state, v));
    for i := 0 to |values|
      invariant valid + invalid == Elements(values[..i]) && valid !! invalid
      invariant forall x :: x in valid ==> Trial(c.expression, v, x, state, anchor) == Some(true)
      invariant forall x :: x in invalid ==> Trial(c.expression, v, x, state, anchor) == Some(false)
    {
      var x := values[i];
      AscendingStep(Possible(state, v), i);
      var verdict := Trial(c.expression, v, x, state, anchor);
      if verdict.None? {
        return Err(RuleContract);
      }
      if verdict.value {
        valid := valid + {x};
      } else {
        invalid := invalid + {x};
      }
    }
    assert values[..|values|] == values;
    assert valid == Passing(c.expression, v, state, anchor);
    assert invalid == Possible(state, v) - valid;
    if valid == {} {
      return Ok([]);
    }
    var premises := PremisesOf(Ascending(BooleanVariables(c.expression) - {v}), state);
    if |valid| == 1 {
      return Ok([Finding(AssignmentAtom(v, TheOnly(valid)), premises, c.id)]);
    }
    return Ok(Collected(Ascending(invalid), Excluding(v, premises, c.id)));
  }

  // ----- rules -----

  function FindingsFor(technique: Technique, c: Constraint, state: PuzzleState,
      anchor: seq<DomainValue>): seq<Finding> {
    match technique
    case Association => Associations(c, state)
    case CategoryBijection => Bijections(c, state)
    case _ => Completions(technique, c, state, anchor)
  }

  /** What a technique finds in each constraint. */
  function Each(technique: Technique, state: PuzzleState, anchor: seq<DomainValue>): Constraint -> seq<Finding> {
    c => FindingsFor(technique, c, state, anchor)
  }

  predicate SomeTrialRaises(technique: Technique, cs: seq<Constraint>, state: PuzzleState, anchor: seq<DomainValue>) {
    exists i :: 0 <= i < |cs| && TrialRaises(technique, cs[i], state, anchor)
  }

  /** All findings of a technique, in constraint order. */
  function Findings(technique: Technique, spec: GridSpec, state: PuzzleState): Result<seq<Finding>>
    requires Shaped(spec)
  {
    if !technique.Association? && !technique.CategoryBijection?
       && SomeTrialRaises(technique, spec.puzzle.constraints, state, Anchor(spec))
    then Err(RuleContract)
    else Ok(Collected(spec.puzzle.constraints, Each(technique, state, Anchor(spec))))
  }

  /** `AssociationRule.find_applications` */
  method FindAssociations(spec: GridSpec, state: PuzzleState) returns (found: seq<Finding>)
    requires Shaped(spec)
    ensures Findings(Association, spec, state) == Ok(found)
  {
    ghost var each := Each(Association, state, Anchor(spec));
    found := [];
    for i := 0 to |spec.puzzle.constraints|
      invariant found == Collected(spec.puzzle.constraints[..i], each)
    {
      var c := spec.puzzle.constraints[i];
      CollectedExtends(spec.puzzle.constraints, i, each);
      if c.ArithmeticConstraint? && c.id in state.active && TechniqueOf(c.expression).Association? {
        var left, right := c.expression.left.variable, c.expression.right.variable;
        if c.expression.relation.Equal? {
          found := found + (Matches(c.id, left, right, state) + Matches(c.id, right, left, state));
        } else {
          found := found + (Mismatch(c.id, left, right, state) + Mismatch(c.id, right, left, state));
        }
      }
    }
    assert spec.puzzle.constraints[..|spec.puzzle.constraints|] == spec.puzzle.constraints;
  }

  /** `CategoryBijectionRule.find_applications` */
  method FindBijections(spec: GridSpec, state: PuzzleState) returns (found: seq<Finding>)
    requires Shaped(spec)
    ensures Findings(CategoryBijection, spec, state) == Ok(found)
  {
    ghost var each := Each(CategoryBijection, state, Anchor(spec));
    found := [];
    for i := 0 to |spec.puzzle.constraints|
      invariant found == Collected(spec.puzzle.constraints[..i], each)
    {
      var c := spec.puzzle.constraints[i];
      CollectedExtends(spec.puzzle.constraints, i, each);
      if c.AllDifferentConstraint? && c.id in state.active {
        var occupied := FindOccupied(c.id, c.variables, state);
        var hidden := FindHidden(c.id, c.variables, state);
        found := found + (occupied + hidden);
      }
    }
    assert spec.puzzle.constraints[..|spec.puzzle.constraints|] == spec.puzzle.constraints;
  }

  /** One clue's turn in the completion rule. */
  method CompleteClue(technique: Technique, c: Constraint, state: PuzzleState, anchor: seq<DomainValue>)
    returns (r: Result<seq<Finding>>)
    requires Concerns(technique, c, state)
    ensures r.Err? <==> TrialRaises(technique, c, state, anchor)
    ensures r.Ok? ==> r.value == Completions(technique, c, state, anchor)
  {
    hide Completed, BoundFindings, Trial, BooleanVariables, Ordinals, Ascending, Unresolved;
    var unresolved := Ascending(Unresolved(c.expression, state));
    AscendingSize(Unresolved(c.expression, state));
    if |unresolved| == 2 && technique.Ordering? {
      return Ok(BoundFindings(c, state, Ordinals(anchor)));
    }
    if |unresolved| != 1 {
      return Ok([]);
    }
    var v := unresolved[0];
    assert v in unresolved;
    assert v == TheOnly(Unresolved(c.expression, state));
    r := TryValues(c, v, state, anchor);
  }

  /** `ClueCompletionRule.find_applications` */
  method FindCompletions(technique: Technique, spec: GridSpec, state: PuzzleState) returns (r: Result<seq<Finding>>)
    requires Shaped(spec)
    requires !technique.Association? && !technique.CategoryBijection?
    ensures r == Findings(technique, spec, state)
  {
    hide TrialRaises, Concerns, Completions, Completed, BoundFindings, Anchor, Ordinals, Collected;
    NothingCollected([], Each(technique, state, Anchor(spec)));
    ghost var each := Each(technique, state, Anchor(spec));
    var found: seq<Finding> := [];
    for i := 0 to |spec.puzzle.constraints|
      invariant found == Collected(spec.puzzle.constraints[..i], each)
      invariant !SomeTrialRaises(technique, spec.puzzle.constraints[..i], state, Anchor(spec))
    {
      var c := spec.puzzle.constraints[i];
      CollectedExtends(spec.puzzle.constraints, i, each);
      if Concerns(technique, c, state) {
        var more := CompleteClue(technique, c, state, Anchor(spec));
        if more.Err? {
          return Err(RuleContract);
        }
        found := found + more.value;
      } else {
        UnconcernedFindsNothing(technique, c, state, Anchor(spec));
      }
    }
    assert spec.puzzle.constraints[..|spec.puzzle.constraints|] == spec.puzzle.constraints;
    return Ok(found);
  }

  lemma {:induction false} UnconcernedFindsNothing(technique: Technique, c: Constraint, state: PuzzleState,
      anchor: seq<DomainValue>)
    requires !Concerns(technique, c, state)
    ensures !TrialRaises(technique, c, state, anchor) && Completions(technique, c, state, anchor) == []
  {
  }

  /** Candidate identifiers are named by conclusion, rule, source state and constraint. */
  type Naming = (Atom, RuleReference, Digest, ConstraintId) -> Identifier

  function PremiseOrder(): (Atom) -> Key {
    (atom: Atom) => AtomText(atom).Order()
  }

  /** `_candidate` */
  function CandidateFor(technique: Technique, state: PuzzleState, naming: Naming, f: Finding): Candidate
    requires !f.conclusion.OtherAtom?
  {
    var source := OfState(state);
    Candidate(
      naming(f.conclusion, technique.Reference(), source, f.constraint), technique.Reference(), source,
      Sort(f.premises, PremiseOrder()), [f.conclusion.variable], [f.constraint],
      if f.conclusion.AssignmentAtom? && Possible(state, f.conclusion.variable) != {}
      then |Possible(state, f.conclusion.variable)| - 1 else 1,
      technique.Rank(), AtomText(f.conclusion))
  }

  function CandidatesFor(technique: Technique, state: PuzzleState, naming: Naming, fs: seq<Finding>): seq<Candidate>
    requires forall i :: 0 <= i < |fs| ==> !fs[i].conclusion.OtherAtom?
  {
    seq(|fs|, i requires 0 <= i < |fs| => CandidateFor(technique, state, naming, fs[i]))
  }

  /** `_proposal`: the conclusion is read back from the tie-break text. */
  function ProposalFor(technique: Technique, c: Candidate, state: PuzzleState): Result<Proposal> {
    if c.rule != technique.Reference() then Err(RuleContract)
    else if c.source != OfState(state) then Err(RuleContract)
    else if !c.tieBreak.AtomText? || c.tieBreak.atom.OtherAtom? then Err(InvalidValue)
    else Ok(Proposal(c.id, c.source, c.rule, c.premises, [c.tieBreak.atom], c.affected, c.supporting))
  }

  function Find(technique: Technique, spec: GridSpec, naming: Naming, state: PuzzleState): Result<seq<Candidate>>
    requires Shaped(spec)
  {
    var found :- Findings(technique, spec, state);
    if exists i :: 0 <= i < |found| && found[i].conclusion.OtherAtom? then Err(InvalidValue)
    else Ok(CandidatesFor(technique, state, naming, found))
  }

  /** A rule as registered for one specification; other puzzles have nothing for it. */
  function GridRule(technique: Technique, spec: GridSpec, naming: Naming): Rule
    requires Shaped(spec)
  {
    Rule(technique.Reference(),
         (puzzle, state) => if puzzle == spec.puzzle then Find(technique, spec, naming, state) else Ok([]),
         (c, state) => ProposalFor(technique, c, state))
  }

  const TECHNIQUES: seq<Technique> := [Association, CategoryBijection, Ordering, NumericRelation, CompoundLogic]

  function GridRules(spec: GridSpec, naming: Naming): (rules: seq<Rule>)
    requires Shaped(spec)
    ensures |rules| == |TECHNIQUES|
    ensures forall i :: 0 <= i < |rules| ==> rules[i] == GridRule(TECHNIQUES[i], spec, naming)
  {
    seq(|TECHNIQUES|, i requires 0 <= i < |TECHNIQUES| => GridRule(TECHNIQUES[i], spec, naming))
  }
}

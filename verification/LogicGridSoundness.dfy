/** Why every Logic Grid finding is well formed, distinct and true in all solutions. */
module LogicGridSoundness {
  import opened Prelude
  import opened Domain
  import opened State
  import opened Events
  import opened Solutions
  import opened Sorting
  import opened Rules
  import opened Grid
  import opened LogicGrid
  import opened LogicGridRules

  /** A state the rules are asked about: valid, structurally sound, and with a solution left. */
  ghost predicate Live(spec: GridSpec, state: PuzzleState) {
    && Valid(spec) && state.Structural() && ValidState(state, spec.puzzle)
    && HasSolution(spec.puzzle, state)
  }

  /** The premises are asserted and listed once. */
  ghost predicate Disclosed(premises: seq<Atom>, state: PuzzleState) {
    NoDuplicates(premises) && forall p :: p in premises ==> p in state.asserted
  }

  /** The conclusion answers an open question of the state. */
  ghost predicate Asks(atom: Atom, state: PuzzleState) {
    !atom.OtherAtom? && atom.value in Possible(state, atom.variable) && |Possible(state, atom.variable)| > 1
  }

  /** A finding the engine can use, from an active constraint, whose conclusion every solution meets. */
  ghost predicate Deduced(f: Finding, c: Constraint, spec: GridSpec, state: PuzzleState)
    requires spec.puzzle.WellFormed()
  {
    && f.constraint == c.id && c.id in state.active
    && Asks(f.conclusion, state) && Disclosed(f.premises, state)
    && Entails(spec.puzzle, state, f.conclusion)
  }

  lemma {:induction false} CollectedMember<T>(items: seq<T>, f: T -> seq<Finding>, g: Finding) returns (i: nat)
    requires g in Collected(items, f)
    ensures i < |items| && g in f(items[i])
  {
    i := |items| - 1;
    if g !in f(items[i]) {
      i := CollectedMember(items[..i], f, g);
    }
  }

  // ----- reading live states -----

  lemma {:induction false} OpenIsRows(spec: GridSpec, state: PuzzleState, v: VariableId)
    requires Shaped(spec) && ValidState(state, spec.puzzle)
    ensures Possible(state, v) <= Elements(ValueIds(Anchor(spec)))
  {
    if v in state.candidates {
      GridIds(spec, v);
      assert state.candidates[v] <= FullDomain(spec.puzzle, v);
    }
  }

  /** A settled variable is asserted to have its value. */
  lemma {:induction false} SettledIsAsserted(state: PuzzleState, v: VariableId)
    requires state.Structural() && |Possible(state, v)| == 1
    ensures AssignmentAtom(v, TheOnly(Possible(state, v))) in state.asserted
  {
  }

  lemma {:induction false} AssertedIsSettled(puzzle: Puzzle, state: PuzzleState, v: VariableId, x: ValueId)
    requires puzzle.WellFormed() && ValidState(state, puzzle) && AssignmentAtom(v, x) in state.asserted
    ensures Possible(state, v) == {x}
  {
    assert AtomAgrees(AssignmentAtom(v, x), state, puzzle);
  }

  /** An absence premise is asserted and really says that `v` is not `x`. */
  lemma {:induction false} AbsenceMeans(puzzle: Puzzle, state: PuzzleState, v: VariableId, x: ValueId)
    requires puzzle.WellFormed() && ValidState(state, puzzle) && Absence(v, x, state).Some?
    ensures var p := Absence(v, x, state).value;
      && p in state.asserted
      && (p == ExclusionAtom(v, x) || (p.AssignmentAtom? && p.variable == v && Possible(state, v) == {p.value} && p.value != x))
  {
    if ExclusionAtom(v, x) !in state.asserted {
      var others := AssertedValues(v, state.asserted) - {x};
      var y := Least(others);
      assert AssignmentAtom(v, y) in state.asserted;
      AssertedIsSettled(puzzle, state, v, y);
    }
  }

  lemma {:induction false} SolutionIsOpen(puzzle: Puzzle, state: PuzzleState, a: Assignment, v: VariableId)
    requires puzzle.WellFormed() && Solution(puzzle, state, a) && v in puzzle.variables
    ensures v in a && a[v] in Possible(state, v)
  {
  }

  /** Active clues are true, to the evaluator the rules use, in every solution. */
  lemma {:induction false} ClueIsTrue(spec: GridSpec, state: PuzzleState, c: Constraint, a: Assignment)
    requires Valid(spec) && c in spec.puzzle.constraints && c.ArithmeticConstraint? && c.id in state.active
    requires Solution(spec.puzzle, state, a)
    ensures Judge(c.expression, ReadValues(spec, a)) == Some(true)
    ensures BooleanVariables(c.expression) <= a.Keys
  {
    hide Judge, ClueHolds, Admitted, CodesOf, BooleanVariables, ValidCategories, ValidGivens, HasBijection;
    assert ValidConstraint(spec, c);
    assert ConstraintHolds(spec.puzzle, c, a);
    ClueAgrees(spec, c.expression, a);
  }

  // ----- direct association -----

  lemma {:induction false} EquationMeans(spec: GridSpec, state: PuzzleState, c: Constraint, a: Assignment)
    requires Valid(spec) && c in spec.puzzle.constraints && Concerns(Association, c, state)
    requires Solution(spec.puzzle, state, a)
    ensures var left, right := c.expression.left.variable, c.expression.right.variable;
      && left in a && right in a && a[left] in Possible(state, left) && a[right] in Possible(state, right)
      && (c.expression.relation.Equal? ==> a[left] == a[right])
      && (c.expression.relation.NotEqual? ==> a[left] != a[right])
  {
    hide Valid, Anchor, Ordinals, Numbers;
    ClueIsTrue(spec, state, c, a);
    assert c.expression.Comparison?;
    assert NumericVariables(c.expression.left) <= BooleanVariables(c.expression);
  }

  lemma {:induction false} ValueAbsencesMean(puzzle: Puzzle, state: PuzzleState, v: VariableId, xs: seq<ValueId>)
    requires puzzle.WellFormed() && ValidState(state, puzzle)
    requires |Possible(state, v)| != 1 && NoDuplicates(xs)
    ensures forall p :: p in ValueAbsences(v, xs, state) ==>
      p in state.asserted && p.ExclusionAtom? && p.value in xs
    ensures Disclosed(ValueAbsences(v, xs, state), state)
  {
    if xs != [] {
      var rest := xs[1..];
      ValueAbsencesMean(puzzle, state, v, rest);
      if Absence(v, xs[0], state).Some? {
        AbsenceMeans(puzzle, state, v, xs[0]);
        PrependDistinct(ExclusionAtom(v, xs[0]), ValueAbsences(v, rest, state));
      }
    }
  }

  /** Every solution draws both variables from their candidates and equates them. */
  ghost predicate Equated(spec: GridSpec, state: PuzzleState, v: VariableId, other: VariableId)
    requires spec.puzzle.WellFormed()
  {
    forall a :: Solution(spec.puzzle, state, a) ==>
      v in a && other in a && a[v] in Possible(state, v) && a[other] in Possible(state, other) && a[v] == a[other]
  }

  /** The only value two equated variables share is the value of both. */
  lemma {:induction false} SharedValueIsDeduced(spec: GridSpec, state: PuzzleState, c: Constraint, v: VariableId,
      other: VariableId, f: Finding)
    requires Shaped(spec) && state.Structural() && ValidState(state, spec.puzzle) && c.id in state.active
    requires Equated(spec, state, v, other) && f in Matches(c.id, v, other, state)
    requires |Possible(state, v)| > 1 && |Possible(state, v) * Possible(state, other)| == 1
    ensures Deduced(f, c, spec, state) && f.conclusion.variable == v
  {
    hide Solution, PuzzleState.Structural, ValidState, Possible, Ascending, ValueAbsences;
    var domain, shared := Possible(state, v), Possible(state, v) * Possible(state, other);
    forall a | Solution(spec.puzzle, state, a) ensures AtomHolds(f.conclusion, a) {
      assert a[v] in shared;
    }
    if |Possible(state, other)| == 1 {
      SettledIsAsserted(state, other);
    } else {
      AscendingElements(domain - shared);
      ValueAbsencesMean(spec.puzzle, state, other, Ascending(domain - shared));
    }
  }

  /** A value only one of two equated variables has is the value of neither. */
  lemma {:induction false} UnsharedValueIsDeduced(spec: GridSpec, state: PuzzleState, c: Constraint, v: VariableId,
      other: VariableId, x: ValueId, f: Finding)
    requires Shaped(spec) && ValidState(state, spec.puzzle) && c.id in state.active && Equated(spec, state, v, other)
    requires x in Possible(state, v) - Possible(state, other) && |Possible(state, v)| > 1
    requires f in Unshared(c.id, v, other, x, state)
    ensures Deduced(f, c, spec, state) && f.conclusion.variable == v
  {
    hide Solution, ValidState, Possible;
    AbsenceMeans(spec.puzzle, state, other, x);
  }

  /** Matches are deduced, given that all solutions equate the two variables. */
  lemma {:induction false} MatchesAreDeduced(spec: GridSpec, state: PuzzleState, c: Constraint, v: VariableId,
      other: VariableId, f: Finding)
    requires Shaped(spec) && state.Structural() && ValidState(state, spec.puzzle) && c.id in state.active
    requires Equated(spec, state, v, other) && f in Matches(c.id, v, other, state)
    ensures Deduced(f, c, spec, state) && f.conclusion.variable == v
  {
    hide Solution, PuzzleState.Structural, ValidState, Possible, Ascending, Unshared, Deduced, Equated;
    var domain, shared := Possible(state, v), Possible(state, v) * Possible(state, other);
    if |domain| > 1 && |shared| == 1 {
      SharedValueIsDeduced(spec, state, c, v, other, f);
    } else {
      var xs := Ascending(domain - shared);
      var i := CollectedMember(xs, EachUnshared(c.id, v, other, state), f);
      var x := xs[i];
      assert x in xs;
      SubsetSize(shared, domain);
      UnsharedValueIsDeduced(spec, state, c, v, other, x, f);
    }
  }

  lemma {:induction false} MismatchIsDeduced(spec: GridSpec, state: PuzzleState, c: Constraint, fixed: VariableId,
      target: VariableId, f: Finding)
    requires Shaped(spec) && state.Structural() && ValidState(state, spec.puzzle) && c.id in state.active
    requires forall a :: Solution(spec.puzzle, state, a) ==>
      fixed in a && target in a && a[fixed] in Possible(state, fixed) && a[fixed] != a[target]
    requires f in Mismatch(c.id, fixed, target, state)
    ensures Deduced(f, c, spec, state) && f.conclusion.variable == target
  {
    hide Solution, ValidState;
    SettledIsAsserted(state, fixed);
  }

  lemma {:induction false} AssociationsAreDeduced(spec: GridSpec, state: PuzzleState, c: Constraint, f: Finding)
    requires Valid(spec) && state.Structural() && ValidState(state, spec.puzzle)
    requires c in spec.puzzle.constraints && f in Associations(c, state)
    ensures Deduced(f, c, spec, state)
  {
    hide Matches, Mismatch, PuzzleState.Structural, ValidState, ValidCategories, ValidGivens, ValidConstraints,
      Solution, Possible;
    var left, right := c.expression.left.variable, c.expression.right.variable;
    forall a | Solution(spec.puzzle, state, a)
      ensures left in a && right in a && a[left] in Possible(state, left) && a[right] in Possible(state, right)
      ensures c.expression.relation.Equal? ==> a[left] == a[right]
      ensures c.expression.relation.NotEqual? ==> a[left] != a[right]
    {
      EquationMeans(spec, state, c, a);
    }
    if c.expression.relation.Equal? {
      if f in Matches(c.id, left, right, state) {
        MatchesAreDeduced(spec, state, c, left, right, f);
      } else {
        MatchesAreDeduced(spec, state, c, right, left, f);
      }
    } else {
      if f in Mismatch(c.id, left, right, state) {
        MismatchIsDeduced(spec, state, c, left, right, f);
      } else {
        MismatchIsDeduced(spec, state, c, right, left, f);
      }
    }
  }

  // ----- category bijection -----

  /** A category's variables take different rows in every solution. */
  lemma {:induction false} CategoryDiffers(spec: GridSpec, state: PuzzleState, c: Constraint, a: Assignment)
    requires Valid(spec) && c in spec.puzzle.constraints && c.AllDifferentConstraint? && c.id in state.active
    requires Solution(spec.puzzle, state, a)
    ensures ValuesDiffer(c.variables, a)
    ensures forall i :: 0 <= i < |c.variables| ==> a[c.variables[i]] in Possible(state, c.variables[i])
  {
    hide CodesDiffer, CodesOf, ValidCategories, ValidGivens, HasBijection, CoversCategory, ValidAnchor;
    assert ValidConstraint(spec, c);
    ListedVariables(spec, c.variables);
    assert ConstraintHolds(spec.puzzle, c, a);
    CodesDifferMeansValuesDiffer(spec.puzzle, c.variables, a, spec.categories[spec.anchorIndex].domain);
  }

  /** A category has one variable for every row. */
  lemma {:induction false} CategorySize(spec: GridSpec, c: Constraint)
    requires Valid(spec) && c in spec.puzzle.constraints && c.AllDifferentConstraint?
    ensures NoDuplicates(c.variables) && |c.variables| == |Elements(ValueIds(Anchor(spec)))|
  {
    hide ValidGivens, HasBijection, ValidAnchor;
    assert ValidConstraint(spec, c);
    var k :| 0 <= k < |spec.categories| && Elements(c.variables) == Elements(spec.categories[k].variables);
    DistinctSize(c.variables);
    DistinctSize(spec.categories[k].variables);
    DistinctSize(ValueIds(Anchor(spec)));
  }

  lemma {:induction false} OccupiedIsDeduced(spec: GridSpec, state: PuzzleState, c: Constraint, i: nat, j: nat,
      f: Finding)
    requires Valid(spec) && state.Structural() && ValidState(state, spec.puzzle)
    requires c in spec.puzzle.constraints && c.AllDifferentConstraint? && c.id in state.active
    requires i < |c.variables| && j < |c.variables|
    requires f in Occupied(c.id, c.variables[i], c.variables[j], state)
    ensures Deduced(f, c, spec, state)
  {
    hide Solution, ValidCategories, ValidGivens, ValidConstraints, ValidAnchor;
    var fixed, target := c.variables[i], c.variables[j];
    var x := TheOnly(Possible(state, fixed));
    SettledIsAsserted(state, fixed);
    ClashingRows(spec, state, c, i, j, x);
    SingletonOrMore(Possible(state, target), x);
    forall a | Solution(spec.puzzle, state, a) ensures AtomHolds(f.conclusion, a) {
      CategoryDiffers(spec, state, c, a);
    }
  }

  lemma {:induction false} SingletonOrMore<T>(s: set<T>, x: T)
    requires x in s && s != {x}
    ensures |s| > 1
  {
    assert |s| == |s - {x}| + 1;
    assert s - {x} != {};
  }

  /** A valid state never settles two items of a category on one row. */
  lemma {:induction false} ClashingRows(spec: GridSpec, state: PuzzleState, c: Constraint, i: nat, j: nat, x: ValueId)
    requires spec.puzzle.WellFormed() && state.Structural() && ValidState(state, spec.puzzle)
    requires c in spec.puzzle.constraints && c.AllDifferentConstraint?
    requires i < |c.variables| && j < |c.variables| && i != j && Possible(state, c.variables[i]) == {x}
    ensures Possible(state, c.variables[j]) != {x}
  {
    var k :| 0 <= k < |spec.puzzle.constraints| && spec.puzzle.constraints[k] == c;
    var vs, low, high := c.variables, if i < j then i else j, if i < j then j else i;
    SettledIsAsserted(state, vs[i]);
    assert x in AssertedValues(vs[i], state.asserted);
    assert x !in AssertedValues(vs[j], state.asserted) by {
      assert AssignedDifferently(spec.puzzle.constraints[k].variables, state.asserted);
      assert AssertedValues(vs[low], state.asserted) !! AssertedValues(vs[high], state.asserted);
    }
    if Possible(state, vs[j]) == {x} {
      SettledIsAsserted(state, vs[j]);
    }
  }

  lemma {:induction false} SupporterMember(vs: seq<VariableId>, x: ValueId, state: PuzzleState, v: VariableId)
    ensures v in Supporters(vs, x, state) <==> v in vs && x in Possible(state, v)
  {
    if vs != [] {
      SupporterMember(vs[1..], x, state, v);
      assert vs == [vs[0]] + vs[1..];
    }
  }

  lemma {:induction false} OtherAbsencesMean(puzzle: Puzzle, state: PuzzleState, vs: seq<VariableId>,
      target: VariableId, x: ValueId)
    requires puzzle.WellFormed() && ValidState(state, puzzle) && NoDuplicates(vs)
    ensures forall p :: p in OtherAbsences(vs, target, x, state) ==> !p.OtherAtom? && p.variable in vs
    ensures Disclosed(OtherAbsences(vs, target, x, state), state)
  {
    hide ValidState, Absence;
    if vs != [] {
      var n := |vs| - 1;
      OtherAbsencesMean(puzzle, state, vs[..n], target, x);
      assert vs[n] !in vs[..n];
      if vs[n] != target && Absence(vs[n], x, state).Some? {
        AbsenceMeans(puzzle, state, vs[n], x);
      }
    }
  }

  /** With as many items as rows, a row open to one item only is that item's row. */
  lemma {:induction false} HiddenIsForced(spec: GridSpec, state: PuzzleState, c: Constraint, x: ValueId, a: Assignment)
    requires Valid(spec) && ValidState(state, spec.puzzle)
    requires c in spec.puzzle.constraints && c.AllDifferentConstraint? && c.id in state.active
    requires |Supporters(c.variables, x, state)| == 1 && Solution(spec.puzzle, state, a)
    ensures var target := Supporters(c.variables, x, state)[0];
      target in a && a[target] == x
  {
    hide Solution, ValidState, ValidCategories, ValidGivens, ValidConstraints, ValidAnchor, Supporters;
    var vs, supporters := c.variables, Supporters(c.variables, x, state);
    var target := supporters[0];
    SupporterMember(vs, x, state, target);
    CategoryDiffers(spec, state, c, a);
    CategorySize(spec, c);
    var taken := seq(|vs|, i requires 0 <= i < |vs| => a[vs[i]]);
    var rows := Elements(ValueIds(Anchor(spec)));
    forall y | y in taken ensures y in rows {
      var i :| 0 <= i < |taken| && taken[i] == y;
      OpenIsRows(spec, state, vs[i]);
    }
    OpenIsRows(spec, state, target);
    Pigeonhole(taken, rows);
    assert x in taken;
    var i :| 0 <= i < |taken| && taken[i] == x;
    SupporterMember(vs, x, state, vs[i]);
    assert vs[i] in supporters;
    assert vs[i] == target;
  }

  lemma {:induction false} HiddenIsDeduced(spec: GridSpec, state: PuzzleState, c: Constraint, x: ValueId, f: Finding)
    requires Valid(spec) && state.Structural() && ValidState(state, spec.puzzle)
    requires c in spec.puzzle.constraints && c.AllDifferentConstraint? && c.id in state.active
    requires f in Hidden(c.id, c.variables, x, state)
    ensures Deduced(f, c, spec, state) && f.conclusion.AssignmentAtom? && f.conclusion.value == x
  {
    hide Solution, ValidState, ValidCategories, ValidGivens, ValidConstraints, ValidAnchor, Supporters, OtherAbsences,
      PuzzleState.Structural;
    var supporters := Supporters(c.variables, x, state);
    SupporterMember(c.variables, x, state, supporters[0]);
    assert supporters[0] in supporters;
    CategorySize(spec, c);
    OtherAbsencesMean(spec.puzzle, state, c.variables, supporters[0], x);
    SingletonOrMore(Possible(state, supporters[0]), x) by { assert |Possible(state, supporters[0])| != 1; }
    forall a | Solution(spec.puzzle, state, a) ensures AtomHolds(f.conclusion, a) {
      HiddenIsForced(spec, state, c, x, a);
    }
  }

  lemma {:induction false} BijectionsAreDeduced(spec: GridSpec, state: PuzzleState, c: Constraint, f: Finding)
    requires Valid(spec) && state.Structural() && ValidState(state, spec.puzzle)
    requires c in spec.puzzle.constraints && f in Bijections(c, state)
    ensures Deduced(f, c, spec, state)
  {
    hide Solution, ValidState, ValidCategories, ValidGivens, ValidConstraints, ValidAnchor, PuzzleState.Structural,
      Hidden, Occupied, Deduced, Ascending;
    var vs := c.variables;
    if f in Collected(vs, EachFixed(c.id, vs, state)) {
      var i := CollectedMember(vs, EachFixed(c.id, vs, state), f);
      var j := CollectedMember(vs, EachOccupied(c.id, vs[i], state), f);
      OccupiedIsDeduced(spec, state, c, i, j, f);
    } else {
      var xs := Ascending(AllValues(vs, state));
      var i := CollectedMember(xs, EachHidden(c.id, vs, state), f);
      HiddenIsDeduced(spec, state, c, xs[i], f);
    }
  }

  // ----- order bounds -----

  /** An order clue of two items, as the evaluators read it, compares row metrics. */
  lemma {:induction false} OrderClueMeans(e: BooleanExpression, a: Assignment, ordinals: map<ValueId, int>,
      numbers: map<ValueId, Number>)
    requires BothVariables(e) && TechniqueOf(e).Ordering?
    requires Judge(e, Values(a, ordinals, numbers)) == Some(true)
    ensures var v, w := e.left.variable, e.right.variable;
      && v in a && w in a && Compare(e.relation, Metric(ordinals, a[v]), Metric(ordinals, a[w]))
      && {v, w} == BooleanVariables(e)
  {
  }

  /** Both sides of an order clue have partners in every solution. */
  lemma {:induction false} OrderedPairIsPartnered(spec: GridSpec, state: PuzzleState, c: Constraint, a: Assignment)
    requires Valid(spec) && c in spec.puzzle.constraints && Concerns(Ordering, c, state)
    requires BothVariables(c.expression) && Solution(spec.puzzle, state, a)
    ensures var v, w, metrics := c.expression.left.variable, c.expression.right.variable, Ordinals(Anchor(spec));
      && v in a && w in a
      && Partnered(c.expression.relation, a[v], Possible(state, w), metrics, true)
      && Partnered(c.expression.relation, a[w], Possible(state, v), metrics, false)
  {
    hide ValidCategories, ValidGivens, ValidConstraints, ValidAnchor, Anchor, Ordinals, Numbers, BooleanVariables,
      Judge, Compare, ConstraintHolds;
    ClueIsTrue(spec, state, c, a);
    OrderClueMeans(c.expression, a, Ordinals(Anchor(spec)), Numbers(Anchor(spec)));
    var v, w := c.expression.left.variable, c.expression.right.variable;
    SolutionIsOpen(spec.puzzle, state, a, v);
    SolutionIsOpen(spec.puzzle, state, a, w);
  }

  lemma {:induction false} BoundsAreDeduced(spec: GridSpec, state: PuzzleState, c: Constraint, f: Finding)
    requires Valid(spec) && c in spec.puzzle.constraints && Concerns(Ordering, c, state)
    requires f in BoundFindings(c, state, Ordinals(Anchor(spec)))
    ensures Deduced(f, c, spec, state)
  {
    hide Solution, ValidCategories, ValidGivens, ValidConstraints, ValidAnchor, Ordinals, Anchor, Partnered,
      OutOfBounds, Ascending, Collected;
    var v, w, relation := c.expression.left.variable, c.expression.right.variable, c.expression.relation;
    var left, right, metrics := Possible(state, v), Possible(state, w), Ordinals(Anchor(spec));
    var (ls, rs) := OutOfBounds(relation, left, right, metrics);
    BoundsAreExact(relation, left, right, metrics);
    forall a | Solution(spec.puzzle, state, a)
      ensures v in a && Partnered(relation, a[v], right, metrics, true)
      ensures w in a && Partnered(relation, a[w], left, metrics, false)
    {
      OrderedPairIsPartnered(spec, state, c, a);
    }
    if f in Collected(Ascending(ls), Excluding(v, [], c.id)) {
      ExcludedMember(v, ls, [], c.id, f);
    } else {
      ExcludedMember(w, rs, [], c.id, f);
    }
  }

  lemma {:induction false} ExcludedMember(v: VariableId, xs: set<ValueId>, premises: seq<Atom>, id: ConstraintId,
      f: Finding)
    requires f in Collected(Ascending(xs), Excluding(v, premises, id))
    ensures f.conclusion.ExclusionAtom? && f.conclusion.value in xs
    ensures f == Finding(ExclusionAtom(v, f.conclusion.value), premises, id)
  {
    var values := Ascending(xs);
    var i := CollectedMember(values, Excluding(v, premises, id), f);
    assert values[i] in values;
  }

  // ----- clue completion -----

  /** With one variable left open, trying a value is the same as asking about the solution that takes
      it: the other variables already have their values. */
  lemma {:induction false} TrialReadsCandidate(spec: GridSpec, state: PuzzleState, e: BooleanExpression,
      v: VariableId, a: Assignment)
    requires Shaped(spec) && Unresolved(e, state) == {v} && BooleanVariables(e) <= a.Keys
    requires forall w :: w in BooleanVariables(e) && w != v ==> a[w] in Possible(state, w)
    ensures Trial(e, v, a[v], state, Anchor(spec)) == Judge(e, ReadValues(spec, a))
  {
    hide Judge, BooleanVariables, Anchor, Ordinals, Numbers;
    var vs := BooleanVariables(e);
    var settled := Settled(vs - {v}, state);
    forall w | w in vs && w != v ensures w in settled && settled[w] == a[w] {
      assert w !in Unresolved(e, state);
      assert |Possible(state, w)| > 0;
    }
    VerdictIsLocal(e, Values(settled[v := a[v]], Ordinals(Anchor(spec)), Numbers(Anchor(spec))), ReadValues(spec, a));
  }

  lemma {:induction false} PremisesDisclosed(vs: seq<VariableId>, state: PuzzleState)
    requires NoDuplicates(vs) && state.Structural()
    ensures Disclosed(PremisesOf(vs, state), state)
    ensures forall p :: p in PremisesOf(vs, state) ==> p.AssignmentAtom? && p.variable in vs
  {
    if vs != [] {
      PremisesDisclosed(vs[1..], state);
      if |Possible(state, vs[0])| == 1 {
        SettledIsAsserted(state, vs[0]);
        PrependDistinct(AssignmentAtom(vs[0], TheOnly(Possible(state, vs[0]))), PremisesOf(vs[1..], state));
      }
    }
  }

  /** The value a solution takes passes its trial. */
  lemma {:induction false} SolutionPassesTrial(spec: GridSpec, state: PuzzleState, c: Constraint, v: VariableId,
      a: Assignment)
    requires Valid(spec) && c in spec.puzzle.constraints && c.ArithmeticConstraint? && c.id in state.active
    requires Unresolved(c.expression, state) == {v} && Solution(spec.puzzle, state, a)
    ensures v in a && a[v] in Passing(c.expression, v, state, Anchor(spec))
  {
    hide Judge, Trial, BooleanVariables, ValidCategories, ValidGivens, ValidConstraints, ValidAnchor, ConstraintHolds;
    ClueIsTrue(spec, state, c, a);
    assert v in BooleanVariables(c.expression);
    TrialReadsCandidate(spec, state, c.expression, v, a);
  }

  lemma {:induction false} CompletedIsDeduced(spec: GridSpec, state: PuzzleState, c: Constraint, v: VariableId,
      f: Finding)
    requires Valid(spec) && state.Structural()
    requires c in spec.puzzle.constraints && c.ArithmeticConstraint? && c.id in state.active
    requires Unresolved(c.expression, state) == {v} && f in Completed(c, v, state, Anchor(spec))
    ensures Deduced(f, c, spec, state) && f.conclusion.variable == v
  {
    hide Solution, Trial, BooleanVariables, ValidCategories, ValidGivens, ValidConstraints, ValidAnchor, Anchor,
      PuzzleState.Structural;
    var e := c.expression;
    var valid := Passing(e, v, state, Anchor(spec));
    var vs := Ascending(BooleanVariables(e) - {v});
    AscendingElements(BooleanVariables(e) - {v});
    PremisesDisclosed(vs, state);
    assert v in Unresolved(e, state);
    forall a | Solution(spec.puzzle, state, a) ensures v in a && a[v] in valid {
      SolutionPassesTrial(spec, state, c, v, a);
    }
    if |valid| != 1 {
      ExcludedMember(v, Possible(state, v) - valid, PremisesOf(vs, state), c.id, f);
    }
  }

  lemma {:induction false} CompletionsAreDeduced(technique: Technique, spec: GridSpec, state: PuzzleState,
      c: Constraint, f: Finding)
    requires Valid(spec) && state.Structural()
    requires c in spec.puzzle.constraints && f in Completions(technique, c, state, Anchor(spec))
    ensures Deduced(f, c, spec, state)
  {
    hide BoundFindings, Completed, Unresolved, Anchor, ValidCategories, ValidGivens, ValidConstraints, ValidAnchor,
      PuzzleState.Structural, Deduced;
    if |Unresolved(c.expression, state)| == 2 && technique.Ordering? {
      BoundsAreDeduced(spec, state, c, f);
    } else {
      CompletedIsDeduced(spec, state, c, TheOnly(Unresolved(c.expression, state)), f);
    }
  }

  /** No trial raises in a live state. */
  lemma {:induction false} TrialsNeverRaise(technique: Technique, spec: GridSpec, state: PuzzleState, c: Constraint)
    requires Live(spec, state) && c in spec.puzzle.constraints
    ensures !TrialRaises(technique, c, state, Anchor(spec))
  {
    hide Judge, Trial, BooleanVariables, ValidCategories, ValidGivens, ValidAnchor, HasBijection, ConstraintHolds,
      PuzzleState.Structural, Admitted;
    if Concerns(technique, c, state) && |Unresolved(c.expression, state)| == 1 {
      var v := TheOnly(Unresolved(c.expression, state));
      var b :| Solution(spec.puzzle, state, b);
      ClueIsTrue(spec, state, c, b);
      assert v in Unresolved(c.expression, state);
      forall x | x in Possible(state, v) ensures Trial(c.expression, v, x, state, Anchor(spec)).Some? {
        TrialIsDecided(spec, state, c, v, x, b);
      }
    }
  }

  lemma {:induction false} TrialIsDecided(spec: GridSpec, state: PuzzleState, c: Constraint, v: VariableId,
      x: ValueId, b: Assignment)
    requires Valid(spec) && ValidState(state, spec.puzzle) && Solution(spec.puzzle, state, b)
    requires c in spec.puzzle.constraints && c.ArithmeticConstraint?
    requires Unresolved(c.expression, state) == {v} && x in Possible(state, v)
    requires BooleanVariables(c.expression) <= b.Keys && v in b
    ensures Trial(c.expression, v, x, state, Anchor(spec)).Some?
  {
    hide Judge, Trial, BooleanVariables, ValidCategories, ValidGivens, ValidAnchor, HasBijection, ConstraintHolds,
      Admitted, ListsDiffer, AllAgree;
    var a := b[v := x];
    assert x in Ids(spec.puzzle, v) by {
      OpenIsRows(spec, state, v);
      GridIds(spec, v);
    }
    assert Complete(spec.puzzle, a) by {
      forall w | w in a ensures a[w] in Ids(spec.puzzle, w) {
      }
    }
    assert ValidConstraint(spec, c);
    ClueAgrees(spec, c.expression, a);
    TrialReadsCandidate(spec, state, c.expression, v, a);
  }

  lemma {:induction false} FindingsAreDeduced(technique: Technique, spec: GridSpec, state: PuzzleState, c: Constraint,
      f: Finding)
    requires Valid(spec) && state.Structural() && ValidState(state, spec.puzzle)
    requires c in spec.puzzle.constraints && f in FindingsFor(technique, c, state, Anchor(spec))
    ensures Deduced(f, c, spec, state)
  {
    hide Associations, Bijections, Completions, Deduced, Valid, ValidState, PuzzleState.Structural, Anchor;
    match technique
    case Association => AssociationsAreDeduced(spec, state, c, f);
    case CategoryBijection => BijectionsAreDeduced(spec, state, c, f);
    case _ => CompletionsAreDeduced(technique, spec, state, c, f);
  }
}

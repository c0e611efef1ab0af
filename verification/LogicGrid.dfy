/** Logic Grid specifications and their independent final checker. */
module LogicGrid {
  import opened Prelude
  import opened Domain
  import opened State
  import opened Solutions
  import opened Grid

  datatype Category = Category(id: Identifier, domain: DomainId, variables: seq<VariableId>)

  /** A Logic Grid puzzle: aligned categories over the rows of one anchor category. */
  datatype GridSpec = GridSpec(
    puzzle: Puzzle, categories: seq<Category>, anchorIndex: nat, ordered: bool)

  /** The parts every reader of a specification relies on: the anchor rows exist, and every variable
      ranges over them. */
  predicate Shaped(spec: GridSpec) {
    && spec.puzzle.WellFormed() && spec.puzzle.family == LOGIC_GRID_FAMILY
    && spec.anchorIndex < |spec.categories|
    && spec.categories[spec.anchorIndex].domain in spec.puzzle.domains
    && forall v :: v in spec.puzzle.variables ==>
         spec.puzzle.variables[v] == spec.categories[spec.anchorIndex].domain
  }

  /** The anchor rows. */
  function Anchor(spec: GridSpec): (rows: seq<DomainValue>)
    requires Shaped(spec)
    ensures NoDuplicates(ValueIds(rows))
  {
    var d := spec.categories[spec.anchorIndex].domain;
    assert d in spec.puzzle.domains;
    spec.puzzle.domains[d]
  }

  /** Whether every anchor row carries a number. */
  predicate Numeric(spec: GridSpec)
    requires Shaped(spec)
  {
    AllRationals(NumericOf(Anchor(spec)))
  }

  /** Categories partition the variables, one variable a row, over distinct domains of one size. */
  ghost predicate ValidCategories(spec: GridSpec)
    requires Shaped(spec)
  {
    var cs := spec.categories;
    && |cs| >= 3 && |Anchor(spec)| >= 2
    && (forall i, j :: 0 <= i < j < |cs| ==> cs[i].domain != cs[j].domain && cs[i].id != cs[j].id)
    && (forall d :: d in spec.puzzle.domains <==> exists i :: 0 <= i < |cs| && cs[i].domain == d)
    && (forall i :: 0 <= i < |cs| ==> NoDuplicates(cs[i].variables) && |cs[i].variables| == |Anchor(spec)|)
    && (forall i, j :: 0 <= i < j < |cs| ==> Elements(cs[i].variables) !! Elements(cs[j].variables))
    && (forall v :: v in spec.puzzle.variables <==> exists i :: 0 <= i < |cs| && v in cs[i].variables)
  }

  /** The list covers one whole category, without repeats. */
  ghost predicate CoversCategory(spec: GridSpec, vs: seq<VariableId>) {
    && NoDuplicates(vs)
    && exists i :: 0 <= i < |spec.categories| && Elements(vs) == Elements(spec.categories[i].variables)
  }

  /** All-different constraints cover categories, every category has one, and clues are admitted. */
  ghost predicate ValidConstraint(spec: GridSpec, c: Constraint)
    requires Shaped(spec)
  {
    match c
    case AllDifferentConstraint(_, vs) => CoversCategory(spec, vs)
    case ArithmeticConstraint(_, e) =>
      && Admitted(e, spec.puzzle.variables.Keys, spec.ordered, Numeric(spec))
      && BooleanVariables(e) != {}
    case _ => false
  }

  ghost predicate ValidConstraints(spec: GridSpec)
    requires Shaped(spec)
  {
    && (forall c :: c in spec.puzzle.constraints ==> ValidConstraint(spec, c))
    && (forall i :: 0 <= i < |spec.categories| ==> HasBijection(spec, spec.categories[i]))
  }

  ghost predicate HasBijection(spec: GridSpec, category: Category) {
    exists c :: c in spec.puzzle.constraints && c.AllDifferentConstraint?
      && Elements(c.variables) == Elements(category.variables)
  }

  /** Two givens that cannot stand together. */
  ghost predicate Clash(spec: GridSpec, g: Atom, h: Atom) {
    && g.AssignmentAtom?
    && ((h.AssignmentAtom? && g.variable == h.variable && g.value != h.value)
        || (h.ExclusionAtom? && g.variable == h.variable && g.value == h.value)
        || (h.AssignmentAtom? && g.variable != h.variable && g.value == h.value
            && SameCategory(spec, g.variable, h.variable)))
  }

  ghost predicate SameCategory(spec: GridSpec, v: VariableId, w: VariableId) {
    exists i :: 0 <= i < |spec.categories| && v in spec.categories[i].variables && w in spec.categories[i].variables
  }

  ghost predicate ValidGivens(spec: GridSpec)
    requires Shaped(spec)
  {
    && NoDuplicates(spec.puzzle.givens)
    && (forall g :: g in spec.puzzle.givens ==>
          !g.OtherAtom? && g.variable in spec.puzzle.variables && g.value in ValueIds(Anchor(spec)))
    && (forall g, h :: g in spec.puzzle.givens && h in spec.puzzle.givens ==> !Clash(spec, g, h))
    && |spec.categories[spec.anchorIndex].variables| == |Anchor(spec)|
    && (forall k :: 0 <= k < |Anchor(spec)| ==>
          AssignmentAtom(spec.categories[spec.anchorIndex].variables[k], Anchor(spec)[k].id) in spec.puzzle.givens)
  }

  /** `validate_logic_grid_contract`, without labels and clue provenance. */
  ghost predicate Valid(spec: GridSpec) {
    && Shaped(spec) && ValidCategories(spec)
    && ValidAnchor(Anchor(spec), spec.ordered, Numeric(spec))
    && ValidConstraints(spec) && ValidGivens(spec)
  }

  /** The checker's view of an assignment. */
  function ReadValues(spec: GridSpec, a: Assignment): Reading
    requires Shaped(spec)
  {
    Values(a, Ordinals(Anchor(spec)), Numbers(Anchor(spec)))
  }

  // ----- the final checker -----

  predicate ConstraintAccepted(spec: GridSpec, c: Constraint, a: Assignment)
    requires Shaped(spec)
  {
    match c
    case AllDifferentConstraint(_, vs) => NoDuplicates(Selected(vs, a))
    case ArithmeticConstraint(_, e) => Judge(e, ReadValues(spec, a)) == Some(true)
    case _ => true
  }

  /** The checker's verdict on one value per variable: complete, over the rows, meeting every given,
      bijection and clue. */
  predicate Accepts(spec: GridSpec, a: Assignment)
    requires Shaped(spec)
  {
    && a.Keys == spec.puzzle.variables.Keys
    && (forall v :: v in a ==> a[v] in ValueIds(Anchor(spec)))
    && (forall g :: g in spec.puzzle.givens ==> AtomHolds(g, a))
    && (forall c :: c in spec.puzzle.constraints ==> ConstraintAccepted(spec, c, a))
  }

  type Listing = seq<(VariableId, ValueId)>

  /** No assignment names an unknown variable or row, or repeats a variable. */
  predicate CleanListing(spec: GridSpec, listing: Listing)
    requires Shaped(spec)
  {
    && (forall i :: 0 <= i < |listing| ==>
          listing[i].0 in spec.puzzle.variables && listing[i].1 in ValueIds(Anchor(spec)))
    && forall i, j :: 0 <= i < j < |listing| ==> listing[i].0 != listing[j].0
  }

  function ByVariable(listing: Listing): Assignment {
    if listing == [] then map[]
    else ByVariable(listing[..|listing| - 1])[listing[|listing| - 1].0 := listing[|listing| - 1].1]
  }

  lemma {:induction false} ByVariableKeys(listing: Listing)
    ensures forall v :: v in ByVariable(listing) <==> exists i :: 0 <= i < |listing| && listing[i].0 == v
    ensures forall v :: v in ByVariable(listing) ==> exists i :: 0 <= i < |listing| && listing[i] == (v, ByVariable(listing)[v])
  {
    if listing != [] {
      var n := |listing| - 1;
      var earlier := listing[..n];
      ByVariableKeys(earlier);
      assert forall i :: 0 <= i < n ==> earlier[i] == listing[i];
      forall v | v in ByVariable(listing)
        ensures exists i :: 0 <= i < |listing| && listing[i] == (v, ByVariable(listing)[v])
        ensures exists i :: 0 <= i < |listing| && listing[i].0 == v
      {
        if v == listing[n].0 {
          assert listing[n] == (v, ByVariable(listing)[v]);
        } else {
          var w := v;
          assert w in ByVariable(earlier);
          var i :| 0 <= i < |earlier| && earlier[i] == (w, ByVariable(earlier)[w]);
          assert listing[i] == (v, ByVariable(listing)[v]);
        }
      }
      forall v | exists i :: 0 <= i < |listing| && listing[i].0 == v ensures v in ByVariable(listing) {
        var i :| 0 <= i < |listing| && listing[i].0 == v;
        if i < n {
          assert earlier[i].0 == v;
        }
      }
    }
  }

  /** An assignment as an atom listing, in variable order. */
  function Listed(a: Assignment): Listing {
    var vs := Ascending(a.Keys);
    seq(|vs|, i requires 0 <= i < |vs| => assert vs[i] in vs; (vs[i], a[vs[i]]))
  }

  lemma {:induction false} ListedEntries(a: Assignment)
    ensures forall i :: 0 <= i < |Listed(a)| ==> Listed(a)[i].0 in a && Listed(a)[i].1 == a[Listed(a)[i].0]
    ensures forall i, j :: 0 <= i < j < |Listed(a)| ==> Listed(a)[i].0 != Listed(a)[j].0
  {
    var vs := Ascending(a.Keys);
    forall i | 0 <= i < |vs| ensures vs[i] in a {
      assert vs[i] in vs;
    }
  }

  lemma {:induction false} ListedMember(a: Assignment, v: VariableId) returns (i: nat)
    requires v in a
    ensures i < |Listed(a)| && Listed(a)[i] == (v, a[v])
  {
    var vs := Ascending(a.Keys);
    assert v in vs;
    i :| 0 <= i < |vs| && vs[i] == v;
  }

  /** The checker reads back exactly the listed assignment. */
  lemma {:induction false} ListedReadsBack(a: Assignment)
    ensures ByVariable(Listed(a)) == a
  {
    hide Listed, ByVariable;
    var listing := Listed(a);
    ListedEntries(a);
    ByVariableKeys(listing);
    forall v ensures v in ByVariable(listing) <==> v in a {
      if v in a {
        var i := ListedMember(a, v);
        assert listing[i].0 == v;
      }
    }
    assert ByVariable(listing).Keys == a.Keys;
    forall v | v in a ensures ByVariable(listing)[v] == a[v] {
      assert v in ByVariable(listing);
      var i :| 0 <= i < |listing| && listing[i] == (v, ByVariable(listing)[v]);
    }
  }

  /** First pass of the checker: fill the dictionary, noting any unusable entry. */
  method Collect(spec: GridSpec, listing: Listing) returns (clean: bool, a: Assignment)
    requires Shaped(spec)
    ensures clean <==> CleanListing(spec, listing)
    ensures clean ==> a == ByVariable(listing)
  {
    clean, a := true, map[];
    for i := 0 to |listing|
      invariant clean <==> CleanListing(spec, listing[..i])
      invariant clean ==> a == ByVariable(listing[..i])
    {
      var (v, x) := listing[i];
      assert listing[..i + 1][..i] == listing[..i];
      ByVariableKeys(listing[..i]);
      CleanExtends(spec, listing, i);
      hide CleanListing, Anchor;
      if v !in spec.puzzle.variables || v in a || x !in ValueIds(Anchor(spec)) {
        clean := false;
      } else {
        a := a[v := x];
      }
    }
    assert listing[..|listing|] == listing;
  }

  lemma {:induction false} CleanExtends(spec: GridSpec, listing: Listing, i: nat)
    requires Shaped(spec) && i < |listing|
    ensures CleanListing(spec, listing[..i + 1]) <==>
      && CleanListing(spec, listing[..i])
      && listing[i].0 in spec.puzzle.variables && listing[i].1 in ValueIds(Anchor(spec))
      && listing[i].0 !in ByVariable(listing[..i])
  {
    var shorter, longer := listing[..i], listing[..i + 1];
    ByVariableKeys(shorter);
    assert forall k :: 0 <= k < i ==> longer[k] == shorter[k];
    assert longer[i] == listing[i];
    if CleanListing(spec, longer) {
      assert CleanListing(spec, shorter) by {
        forall k | 0 <= k < i
          ensures shorter[k].0 in spec.puzzle.variables && shorter[k].1 in ValueIds(Anchor(spec))
        {
          assert longer[k] == shorter[k];
        }
        forall k, l | 0 <= k < l < i ensures shorter[k].0 != shorter[l].0 {
          assert longer[k].0 != longer[l].0;
        }
      }
      forall k | 0 <= k < i ensures shorter[k].0 != listing[i].0 {
        assert longer[k].0 != longer[i].0;
      }
    }
  }

  /** `check_logic_grid_solution` */
  method CheckSolution(spec: GridSpec, listing: Listing) returns (accepted: bool)
    requires Shaped(spec)
    ensures accepted <==> CleanListing(spec, listing) && Accepts(spec, ByVariable(listing))
  {
    var clean, a := Collect(spec, listing);
    if !clean || a.Keys != spec.puzzle.variables.Keys {
      return false;
    }
    ByVariableKeys(listing);
    assert forall v :: v in a ==> a[v] in ValueIds(Anchor(spec));
    accepted := true;
    for i := 0 to |spec.puzzle.givens|
      invariant accepted <==> forall k :: 0 <= k < i ==> AtomHolds(spec.puzzle.givens[k], a)
    {
      if !AtomHolds(spec.puzzle.givens[i], a) {
        accepted := false;
      }
    }
    ghost var givensHold := accepted;
    for i := 0 to |spec.puzzle.constraints|
      invariant accepted == (givensHold
        && forall k :: 0 <= k < i ==> ConstraintAccepted(spec, spec.puzzle.constraints[k], a))
    {
      if !ConstraintAccepted(spec, spec.puzzle.constraints[i], a) {
        accepted := false;
      }
    }
  }

  // ----- the checker accepts exactly the solutions -----

  lemma {:induction false} GridIds(spec: GridSpec, v: VariableId)
    requires Shaped(spec) && v in spec.puzzle.variables
    ensures Ids(spec.puzzle, v) == ValueIds(Anchor(spec))
    ensures spec.puzzle.ValuesOf(v) == Anchor(spec)
  {
  }

  lemma {:induction false} SelectedOfComplete(vs: seq<VariableId>, a: Assignment)
    requires forall i :: 0 <= i < |vs| ==> vs[i] in a
    ensures NoDuplicates(Selected(vs, a)) <==> ValuesDiffer(vs, a)
  {
    SelectedDistinct(vs, a);
  }

  lemma {:induction false} GridAligned(spec: GridSpec, a: Assignment)
    requires Shaped(spec) && Complete(spec.puzzle, a)
    ensures Aligned(CodesOf(spec.puzzle, a), a, Table(spec.puzzle), Anchor(spec), spec.puzzle.variables.Keys)
  {
    forall v | v in spec.puzzle.variables
      ensures 0 <= CodesOf(spec.puzzle, a)[v] < |Anchor(spec)|
      ensures a[v] == Anchor(spec)[CodesOf(spec.puzzle, a)[v]].id
      ensures Table(spec.puzzle)[v] == NumericOf(Anchor(spec))
    {
      GridIds(spec, v);
    }
  }

  /** A clue means the same to the backends and to the checker, which never raises on it. */
  lemma {:induction false} ClueAgrees(spec: GridSpec, e: BooleanExpression, a: Assignment)
    requires Shaped(spec) && Complete(spec.puzzle, a)
    requires ValidAnchor(Anchor(spec), spec.ordered, Numeric(spec))
    requires Admitted(e, spec.puzzle.variables.Keys, spec.ordered, Numeric(spec))
    ensures Judge(e, ReadValues(spec, a)).Some?
    ensures ClueHolds(spec.puzzle.family, e, CodesOf(spec.puzzle, a), Table(spec.puzzle))
      <==> Judge(e, ReadValues(spec, a)) == Some(true)
    ensures BooleanVariables(e) <= spec.puzzle.variables.Keys
  {
    hide Judge, Admitted, Encode, Aligned, ValidAnchor, Anchor, Numeric, BooleanVariables;
    var codes, table, vs := CodesOf(spec.puzzle, a), Table(spec.puzzle), spec.puzzle.variables.Keys;
    GridAligned(spec, a);
    VerdictsAgree(e, codes, a, table, Anchor(spec), vs, spec.ordered, Numeric(spec));
    EncodedVariables(e, table);
    VerdictIsLocal(e, Codes(codes, table), Codes(Restrict(codes, BooleanVariables(e)), table));
  }

  lemma {:induction false} ListedVariables(spec: GridSpec, vs: seq<VariableId>)
    requires Shaped(spec) && ValidCategories(spec) && CoversCategory(spec, vs)
    ensures forall i :: 0 <= i < |vs| ==>
      vs[i] in spec.puzzle.variables
      && spec.puzzle.variables[vs[i]] == spec.categories[spec.anchorIndex].domain
  {
    var k :| 0 <= k < |spec.categories| && Elements(vs) == Elements(spec.categories[k].variables);
    forall i | 0 <= i < |vs|
      ensures vs[i] in spec.puzzle.variables
      ensures spec.puzzle.variables[vs[i]] == spec.categories[spec.anchorIndex].domain
    {
      var v := vs[i];
      assert v in Elements(vs);
      assert v in spec.categories[k].variables;
    }
  }

  lemma {:induction false} ConstraintAgrees(spec: GridSpec, c: Constraint, a: Assignment)
    requires Shaped(spec) && ValidCategories(spec) && Complete(spec.puzzle, a) && ValidConstraint(spec, c)
    requires ValidAnchor(Anchor(spec), spec.ordered, Numeric(spec))
    ensures ConstraintHolds(spec.puzzle, c, a) <==> ConstraintAccepted(spec, c, a)
  {
    hide Judge, ClueHolds, CoversCategory, ValidCategories, CodesDiffer, CodesOf, Selected;
    if c.AllDifferentConstraint? {
      ListedVariables(spec, c.variables);
      CodesDifferMeansValuesDiffer(spec.puzzle, c.variables, a, spec.categories[spec.anchorIndex].domain);
      SelectedOfComplete(c.variables, a);
    } else {
      ClueAgrees(spec, c.expression, a);
    }
  }

  /** The final checker accepts exactly the solutions of the genesis state, although it compares row
      identifiers, ordinals and exact numbers where the backends compare codes. */
  lemma {:induction false} CheckerAcceptsSolutions(spec: GridSpec, stateId: Identifier, branch: Identifier, n: nat,
      a: Assignment)
    requires Valid(spec) && InitialState(spec.puzzle, stateId, branch, n).Ok?
    ensures Accepts(spec, a) <==> Solution(spec.puzzle, InitialState(spec.puzzle, stateId, branch, n).value, a)
  {
    hide ConstraintHolds, ConstraintAccepted, InitialState, Solution, ValidConstraint, ValidCategories, ValidAnchor,
      HasBijection, Clash;
    InitialSolutions(spec.puzzle, stateId, branch, n, a);
    if a.Keys == spec.puzzle.variables.Keys {
      forall v | v in a ensures a[v] in Ids(spec.puzzle, v) <==> a[v] in ValueIds(Anchor(spec)) {
        GridIds(spec, v);
      }
    }
    if Complete(spec.puzzle, a) {
      forall c | c in spec.puzzle.constraints
        ensures ConstraintHolds(spec.puzzle, c, a) <==> ConstraintAccepted(spec, c, a)
      {
        ConstraintAgrees(spec, c, a);
      }
    }
  }
}

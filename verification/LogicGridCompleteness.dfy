/** What the Logic Grid rules discover: in a live state exactly the deductions described here, clue by clue. */
module LogicGridCompleteness {
  import opened Prelude
  import opened Domain
  import opened State
  import opened Events
  import opened Solutions
  import opened Sorting
  import opened Rules
  import opened Grid
  import opened LogicGrid
  import opened LogicGridRules
  import opened LogicGridSoundness
  import opened LogicGridDiscovery
  import Tables = LogicGridTables

  // ----- candidates of a state -----

  predicate Open(state: PuzzleState, v: VariableId) {
    v in state.candidates && |state.candidates[v]| > 1
  }

  predicate Fixed(state: PuzzleState, v: VariableId, x: ValueId) {
    v in state.candidates && state.candidates[v] == {x}
  }

  predicate May(state: PuzzleState, v: VariableId, x: ValueId) {
    v in state.candidates && x in state.candidates[v]
  }

  /** The asserted atom that is cited for `v` not being `x`: the exclusion itself, or else the row `v` is on. */
  function Cited(state: PuzzleState, v: VariableId, x: ValueId): Option<Atom> {
    if ExclusionAtom(v, x) in state.asserted then Some(ExclusionAtom(v, x))
    else if v in state.candidates && |state.candidates[v]| == 1 && x !in state.candidates[v]
    then Some(AssignmentAtom(v, TheOnly(state.candidates[v])))
    else None
  }

  lemma {:induction false} LiveParts(spec: GridSpec, state: PuzzleState)
    requires Live(spec, state)
    ensures
      && Shaped(spec)
      && Valid(spec)
      && spec.puzzle.WellFormed()
      && ValidState(state, spec.puzzle)
      && state.Structural()
  {
  }

  lemma {:induction false} AbsenceExactly(spec: GridSpec, state: PuzzleState, v: VariableId, x: ValueId)
    requires Live(spec, state)
    ensures Absence(v, x, state) == Cited(state, v, x)
  {
    hide Live, Valid, PuzzleState.Structural, ValidState, Puzzle.WellFormed, Absence, Cited;
    LiveParts(spec, state);
    if Absence(v, x, state).Some? {
      AbsenceMeans(spec.puzzle, state, v, x);
    }
    AbsenceCites(state, v, x);
  }

  lemma {:induction false} AbsenceCites(state: PuzzleState, v: VariableId, x: ValueId)
    requires state.Structural()
    requires var p := Absence(v, x, state); p.Some? ==>
      && p.value in state.asserted
      && (p.value == ExclusionAtom(v, x)
          || (p.value.AssignmentAtom? && p.value.variable == v && Possible(state, v) == {p.value.value} && p.value.value != x))
    ensures Absence(v, x, state) == Cited(state, v, x)
  {
    hide PuzzleState.Structural;
    if ExclusionAtom(v, x) !in state.asserted && Cited(state, v, x).Some? {
      SettledIsAsserted(state, v);
      var y := TheOnly(state.candidates[v]);
      assert AssignmentAtom(v, y) in state.asserted;
      assert y in AssertedValues(v, state.asserted) - {x};
    }
  }

  /** Something can be cited for `v` being none of the values, and the premises are exactly that. */
  ghost predicate CitesAll(state: PuzzleState, premises: set<Atom>, v: VariableId, xs: set<ValueId>) {
    && (forall x :: x in xs ==> Cited(state, v, x).Some?)
    && premises == set x | x in xs :: Cited(state, v, x).value
  }

  lemma {:induction false} ValueAbsencesExactly(spec: GridSpec, state: PuzzleState, v: VariableId, xs: seq<ValueId>)
    requires Live(spec, state)
    ensures var found := ValueAbsences(v, xs, state);
      && |found| <= |xs|
      && (|found| == |xs| <==> forall x :: x in xs ==> Cited(state, v, x).Some?)
      && (|found| == |xs| ==> CitesAll(state, Elements(found), v, Elements(xs)))
  {
    hide Live, Absence, Cited;
    if xs != [] {
      AbsenceExactly(spec, state, v, xs[0]);
      ValueAbsencesExactly(spec, state, v, xs[1..]);
      assert xs == [xs[0]] + xs[1..];
      var found := ValueAbsences(v, xs, state);
      if |found| == |xs| {
        var first, rest := Cited(state, v, xs[0]).value, ValueAbsences(v, xs[1..], state);
        assert found == [first] + rest;
        ElementsJoin(first, rest);
        ElementsJoin(xs[0], xs[1..]);
      }
    }
  }

  lemma {:induction false} ElementsJoin<T>(x: T, s: seq<T>)
    ensures Elements([x] + s) == {x} + Elements(s)
  {
  }

  // ----- equations -----

  /** What an equation of `v` and `w` says about `v`: the one row both may take, cited for by the row of `w` or by
      what rules the other rows of `v` out for it; or, while they share several, a row that is ruled out for `w`. */
  ghost predicate Matched(state: PuzzleState, v: VariableId, w: VariableId, conclusion: Atom, premises: set<Atom>) {
    v in state.candidates && w in state.candidates
    && var shared := state.candidates[v] * state.candidates[w];
       match conclusion
       case AssignmentAtom(u, x) =>
         && u == v && Open(state, v) && shared == {x}
         && (if Fixed(state, w, x) then premises == {AssignmentAtom(w, x)}
             else CitesAll(state, premises, w, state.candidates[v] - {x}))
       case ExclusionAtom(u, x) =>
         && u == v && |shared| > 1 && May(state, v, x) && !May(state, w, x)
         && Cited(state, w, x).Some? && premises == {Cited(state, w, x).value}
       case OtherAtom(_) => false
  }

  ghost predicate Found(fs: seq<Finding>, conclusion: Atom, premises: set<Atom>) {
    exists f :: f in fs && f.conclusion == conclusion && Elements(f.premises) == premises
  }

  lemma {:induction false} FoundJoins(fs: seq<Finding>, gs: seq<Finding>, conclusion: Atom, premises: set<Atom>)
    ensures Found(fs + gs, conclusion, premises) <==> Found(fs, conclusion, premises) || Found(gs, conclusion, premises)
  {
    if Found(fs, conclusion, premises) {
      var f :| f in fs && f.conclusion == conclusion && Elements(f.premises) == premises;
      assert f in fs + gs;
    }
    if Found(gs, conclusion, premises) {
      var f :| f in gs && f.conclusion == conclusion && Elements(f.premises) == premises;
      assert f in fs + gs;
    }
  }

  lemma {:induction false} FoundOne(f: Finding, conclusion: Atom, premises: set<Atom>)
    ensures Found([f], conclusion, premises) <==> f.conclusion == conclusion && Elements(f.premises) == premises
    ensures !Found([], conclusion, premises)
  {
    if f.conclusion == conclusion && Elements(f.premises) == premises {
      assert f in [f];
    }
  }

  lemma {:induction false} FoundCollected<T>(items: seq<T>, each: T -> seq<Finding>, conclusion: Atom,
      premises: set<Atom>)
    ensures Found(Collected(items, each), conclusion, premises)
      <==> exists i :: 0 <= i < |items| && Found(each(items[i]), conclusion, premises)
  {
    if items != [] {
      var n := |items| - 1;
      FoundCollected(items[..n], each, conclusion, premises);
      FoundJoins(Collected(items[..n], each), each(items[n]), conclusion, premises);
      assert forall i :: 0 <= i < n ==> items[..n][i] == items[i];
    } else {
      NothingFound(conclusion, premises);
    }
  }

  lemma {:induction false} NothingFound(conclusion: Atom, premises: set<Atom>)
    ensures !Found([], conclusion, premises)
  {
  }

  lemma {:induction false} SharedExactly(spec: GridSpec, state: PuzzleState, id: ConstraintId, v: VariableId,
      w: VariableId, conclusion: Atom, premises: set<Atom>)
    requires Live(spec, state) && v in state.candidates && w in state.candidates
    requires Open(state, v) && |state.candidates[v] * state.candidates[w]| == 1
    ensures Found(Matches(id, v, w, state), conclusion, premises) <==> Matched(state, v, w, conclusion, premises)
  {
    hide Live, ValueAbsences, Ascending, CitesAll, Cited, Found, Elements;
    var domain, other := state.candidates[v], state.candidates[w];
    var shared := domain * other;
    var x := TheOnly(shared);
    assert shared == {x} && x in shared;
    var taken := AssignmentAtom(v, x);
    assert domain - shared == domain - {x};
    var missing := Ascending(domain - shared);
    AscendingElements(domain - shared);
    if |other| == 1 {
      OnlyMember(other, x);
      var f := Finding(taken, [AssignmentAtom(w, TheOnly(other))], id);
      FoundOne(f, conclusion, premises);
      OneElement(AssignmentAtom(w, x));
    } else {
      assert !Fixed(state, w, x);
      var cited := ValueAbsences(w, missing, state);
      ValueAbsencesExactly(spec, state, w, missing);
      CitesMeans(state, premises, w, missing, Elements(cited));
      FoundOne(Finding(taken, cited, id), conclusion, premises);
      NothingFound(conclusion, premises);
    }
  }

  lemma {:induction false} OnlyMember<T>(s: set<T>, x: T)
    requires |s| == 1 && x in s
    ensures s == {x} && TheOnly(s) == x
  {
    assert s == {TheOnly(s)};
  }

  lemma {:induction false} CitesMeans(state: PuzzleState, premises: set<Atom>, v: VariableId, xs: seq<ValueId>,
      cited: set<Atom>)
    ensures CitesAll(state, premises, v, Elements(xs)) ==> forall x :: x in xs ==> Cited(state, v, x).Some?
    ensures CitesAll(state, cited, v, Elements(xs)) ==> (CitesAll(state, premises, v, Elements(xs)) <==> premises == cited)
  {
    hide Cited;
    if CitesAll(state, premises, v, Elements(xs)) {
      forall x | x in xs ensures Cited(state, v, x).Some? {
        assert x in Elements(xs);
      }
    }
  }

  lemma {:induction false} OneElement<T>(x: T)
    ensures Elements([x]) == {x}
  {
  }

  lemma {:induction false} UnsharedExactly(spec: GridSpec, state: PuzzleState, id: ConstraintId, v: VariableId,
      w: VariableId, x: ValueId, conclusion: Atom, premises: set<Atom>)
    requires Live(spec, state)
    ensures Found(Unshared(id, v, w, x, state), conclusion, premises)
      <==> conclusion == ExclusionAtom(v, x) && Cited(state, w, x).Some? && premises == {Cited(state, w, x).value}
  {
    hide Live, Absence, Cited, Found, Elements;
    AbsenceExactly(spec, state, w, x);
    var premise := Absence(w, x, state);
    NothingFound(conclusion, premises);
    if premise.Some? {
      FoundOne(Finding(ExclusionAtom(v, x), [premise.value], id), conclusion, premises);
      OneElement(premise.value);
    }
  }

  lemma {:induction false} MatchesExactly(spec: GridSpec, state: PuzzleState, id: ConstraintId, v: VariableId,
      w: VariableId, conclusion: Atom, premises: set<Atom>)
    requires Live(spec, state) && v in state.candidates && w in state.candidates
    ensures Found(Matches(id, v, w, state), conclusion, premises) <==> Matched(state, v, w, conclusion, premises)
  {
    hide Live, ValueAbsences, Ascending, CitesAll, Cited, Found, Unshared;
    var domain, other := state.candidates[v], state.candidates[w];
    var shared := domain * other;
    SubsetSize(shared, domain);
    if |shared| == 1 && Open(state, v) {
      SharedExactly(spec, state, id, v, w, conclusion, premises);
    } else if |shared| > 1 {
      var xs := Ascending(domain - shared);
      AscendingElements(domain - shared);
      var each := EachUnshared(id, v, w, state);
      FoundCollected(xs, each, conclusion, premises);
      forall i | 0 <= i < |xs| ensures Found(each(xs[i]), conclusion, premises) <==>
        conclusion == ExclusionAtom(v, xs[i]) && Cited(state, w, xs[i]).Some? && premises == {Cited(state, w, xs[i]).value}
      {
        UnsharedExactly(spec, state, id, v, w, xs[i], conclusion, premises);
      }
      forall x ensures x in xs <==> May(state, v, x) && !May(state, w, x) {
        assert x in xs <==> x in domain - shared;
      }
      NoSingle(shared);
    } else {
      NothingFound(conclusion, premises);
      NoSingle(shared);
    }
  }

  lemma {:induction false} NoSingle(s: set<ValueId>)
    ensures forall x :: s == {x} ==> |s| == 1
  {
  }

  // ----- disequations -----

  /** A settled variable rules its row out for the other one. */
  predicate Mismatched(state: PuzzleState, fixed: VariableId, target: VariableId, conclusion: Atom,
      premises: set<Atom>) {
    && conclusion.ExclusionAtom? && conclusion.variable == target && Open(state, target) && May(state, target, conclusion.value)
    && Fixed(state, fixed, conclusion.value) && premises == {AssignmentAtom(fixed, conclusion.value)}
  }

  lemma {:induction false} MismatchExactly(state: PuzzleState, id: ConstraintId, fixed: VariableId, target: VariableId,
      conclusion: Atom, premises: set<Atom>)
    requires fixed in state.candidates && target in state.candidates
    ensures Found(Mismatch(id, fixed, target, state), conclusion, premises)
      <==> Mismatched(state, fixed, target, conclusion, premises)
  {
    hide Found, Elements;
    NothingFound(conclusion, premises);
    if |state.candidates[fixed]| == 1 {
      var x := TheOnly(state.candidates[fixed]);
      FoundOne(Finding(ExclusionAtom(target, x), [AssignmentAtom(fixed, x)], id), conclusion, premises);
      OneElement(AssignmentAtom(fixed, x));
    }
  }

  // ----- bijections -----

  /** A row taken by one item is ruled out for another item of the list that still may take it. */
  ghost predicate RowTaken(state: PuzzleState, vs: seq<VariableId>, conclusion: Atom, premises: set<Atom>) {
    && conclusion.ExclusionAtom? && conclusion.variable in vs && May(state, conclusion.variable, conclusion.value)
    && exists fixed :: fixed in vs && fixed != conclusion.variable && Fixed(state, fixed, conclusion.value)
         && premises == {AssignmentAtom(fixed, conclusion.value)}
  }

  /** An open item takes a row that is ruled out, with something to cite, for every other item of the list. */
  ghost predicate RowHidden(state: PuzzleState, vs: seq<VariableId>, conclusion: Atom, premises: set<Atom>) {
    && conclusion.AssignmentAtom? && conclusion.variable in vs
    && Open(state, conclusion.variable) && May(state, conclusion.variable, conclusion.value)
    && (forall w :: w in vs && w != conclusion.variable ==>
          !May(state, w, conclusion.value) && Cited(state, w, conclusion.value).Some?)
    && premises == CitedByOthers(state, vs, conclusion.variable, conclusion.value)
  }

  /** What can be cited for the other items of the list not taking the row. */
  function CitedByOthers(state: PuzzleState, vs: seq<VariableId>, v: VariableId, x: ValueId): set<Atom> {
    set w | w in vs && w != v && Cited(state, w, x).Some? :: Cited(state, w, x).value
  }

  lemma {:induction false} OccupiedExactly(state: PuzzleState, id: ConstraintId, fixed: VariableId, target: VariableId,
      conclusion: Atom, premises: set<Atom>)
    requires fixed in state.candidates && target in state.candidates
    ensures Found(Occupied(id, fixed, target, state), conclusion, premises) <==>
      && conclusion.ExclusionAtom? && conclusion.variable == target && May(state, target, conclusion.value)
      && fixed != target && Fixed(state, fixed, conclusion.value) && premises == {AssignmentAtom(fixed, conclusion.value)}
  {
    hide Found, Elements;
    NothingFound(conclusion, premises);
    if |state.candidates[fixed]| == 1 {
      var x := TheOnly(state.candidates[fixed]);
      FoundOne(Finding(ExclusionAtom(target, x), [AssignmentAtom(fixed, x)], id), conclusion, premises);
      OneElement(AssignmentAtom(fixed, x));
    }
  }

  lemma {:induction false} TakenExactly(state: PuzzleState, id: ConstraintId, vs: seq<VariableId>, conclusion: Atom,
      premises: set<Atom>)
    requires forall v :: v in vs ==> v in state.candidates
    ensures Found(Collected(vs, EachFixed(id, vs, state)), conclusion, premises) <==> RowTaken(state, vs, conclusion, premises)
  {
    hide Found, Occupied;
    var each := EachFixed(id, vs, state);
    FoundCollected(vs, each, conclusion, premises);
    forall i | 0 <= i < |vs| ensures Found(each(vs[i]), conclusion, premises) <==>
      exists j :: 0 <= j < |vs| && Found(Occupied(id, vs[i], vs[j], state), conclusion, premises)
    {
      FoundCollected(vs, EachOccupied(id, vs[i], state), conclusion, premises);
    }
    forall i, j | 0 <= i < |vs| && 0 <= j < |vs| ensures Found(Occupied(id, vs[i], vs[j], state), conclusion, premises) <==>
      && conclusion.ExclusionAtom? && conclusion.variable == vs[j] && May(state, vs[j], conclusion.value)
      && vs[i] != vs[j] && Fixed(state, vs[i], conclusion.value) && premises == {AssignmentAtom(vs[i], conclusion.value)}
    {
      OccupiedExactly(state, id, vs[i], vs[j], conclusion, premises);
    }
  }

  lemma {:induction false} OtherCitedExactly(spec: GridSpec, state: PuzzleState, vs: seq<VariableId>,
      target: VariableId, x: ValueId)
    requires Live(spec, state) && NoDuplicates(vs)
    ensures var found, others := OtherAbsences(vs, target, x, state), |vs| - (if target in vs then 1 else 0);
      && |found| <= others && Elements(found) == CitedByOthers(state, vs, target, x)
      && (|found| == others <==> forall w :: w in vs && w != target ==> Cited(state, w, x).Some?)
  {
    hide Live, Absence, Cited;
    if vs != [] {
      var n := |vs| - 1;
      assert vs == vs[..n] + [vs[n]] && vs[n] !in vs[..n];
      AbsenceExactly(spec, state, vs[n], x);
      OtherCitedExactly(spec, state, vs[..n], target, x);
      var earlier := OtherAbsences(vs[..n], target, x, state);
      if vs[n] != target && Cited(state, vs[n], x).Some? {
        assert Elements(earlier + [Cited(state, vs[n], x).value]) == Elements(earlier) + {Cited(state, vs[n], x).value};
      } else {
        assert earlier + [] == earlier;
      }
    }
  }

  lemma {:induction false} SoleSupporter(spec: GridSpec, state: PuzzleState, id: ConstraintId, vs: seq<VariableId>,
      x: ValueId, v: VariableId, conclusion: Atom, premises: set<Atom>)
    requires Live(spec, state) && NoDuplicates(vs) && v in vs && v in state.candidates && May(state, v, x)
    requires Supporters(vs, x, state) == [v] && forall w :: w in vs && w != v ==> !May(state, w, x)
    ensures Found(Hidden(id, vs, x, state), conclusion, premises) <==>
      conclusion == AssignmentAtom(v, x) && RowHidden(state, vs, conclusion, premises)
  {
    hide Live, Supporters, OtherAbsences, Cited, Found, Elements, CitedByOthers, NoDuplicates;
    NothingFound(conclusion, premises);
    OtherCitedExactly(spec, state, vs, v, x);
    FoundOne(Finding(AssignmentAtom(v, x), OtherAbsences(vs, v, x, state), id), conclusion, premises);
    if state.candidates[v] != {x} {
      SingletonOrMore(state.candidates[v], x);
    }
  }

  lemma {:induction false} HiddenExactly(spec: GridSpec, state: PuzzleState, id: ConstraintId, vs: seq<VariableId>,
      x: ValueId, conclusion: Atom, premises: set<Atom>)
    requires Live(spec, state) && NoDuplicates(vs) && forall v :: v in vs ==> v in state.candidates
    ensures Found(Hidden(id, vs, x, state), conclusion, premises) <==>
      RowHidden(state, vs, conclusion, premises) && conclusion.value == x
  {
    hide Live, Supporters, OtherAbsences, Cited, Found, CitedByOthers;
    NothingFound(conclusion, premises);
    var supporters := Supporters(vs, x, state);
    forall v ensures v in supporters <==> v in vs && May(state, v, x) {
      SupporterMember(vs, x, state, v);
    }
    SupportersApart(vs, x, state);
    if RowHidden(state, vs, conclusion, premises) && conclusion.value == x {
      OnlySupporter(supporters, conclusion.variable);
    }
    if |supporters| == 1 {
      var v := supporters[0];
      assert v in supporters && supporters == [v];
      SoleSupporter(spec, state, id, vs, x, v, conclusion, premises);
    }
  }

  lemma {:induction false} SupportersApart(vs: seq<VariableId>, x: ValueId, state: PuzzleState)
    requires NoDuplicates(vs)
    ensures NoDuplicates(Supporters(vs, x, state))
  {
    if vs != [] {
      SupportersApart(vs[1..], x, state);
      SupporterMember(vs[1..], x, state, vs[0]);
      PrependDistinct(vs[0], Supporters(vs[1..], x, state));
      assert vs[0] !in vs[1..];
    }
  }

  lemma {:induction false} OnlySupporter(supporters: seq<VariableId>, v: VariableId)
    requires NoDuplicates(supporters) && v in supporters && forall w :: w in supporters ==> w == v
    ensures |supporters| == 1 && supporters[0] == v
  {
    DistinctSize(supporters);
    assert Elements(supporters) == {v};
    assert supporters[0] in supporters;
  }

  lemma {:induction false} BijectionsExactly(spec: GridSpec, state: PuzzleState, c: Constraint, conclusion: Atom,
      premises: set<Atom>)
    requires Live(spec, state) && c in spec.puzzle.constraints && c.AllDifferentConstraint? && c.id in state.active
    ensures Found(Bijections(c, state), conclusion, premises)
      <==> RowTaken(state, c.variables, conclusion, premises) || RowHidden(state, c.variables, conclusion, premises)
  {
    hide Live, Found, Hidden, Ascending, Cited, RowTaken, CitedByOthers, EachFixed, Collected;
    var vs := c.variables;
    ListedIsKnown(spec, state, c);
    var xs := Ascending(AllValues(vs, state));
    FoundJoins(Collected(vs, EachFixed(c.id, vs, state)), Collected(xs, EachHidden(c.id, vs, state)), conclusion, premises);
    TakenExactly(state, c.id, vs, conclusion, premises);
    FoundCollected(xs, EachHidden(c.id, vs, state), conclusion, premises);
    forall i | 0 <= i < |xs| ensures Found(EachHidden(c.id, vs, state)(xs[i]), conclusion, premises) <==>
      RowHidden(state, vs, conclusion, premises) && conclusion.value == xs[i]
    {
      HiddenExactly(spec, state, c.id, vs, xs[i], conclusion, premises);
      assert EachHidden(c.id, vs, state)(xs[i]) == Hidden(c.id, vs, xs[i], state);
    }
    if RowHidden(state, vs, conclusion, premises) {
      var v := conclusion.variable;
      assert v in vs && conclusion.value in Possible(state, v);
      assert conclusion.value in xs;
    }
  }

  lemma {:induction false} ListedIsKnown(spec: GridSpec, state: PuzzleState, c: Constraint)
    requires Live(spec, state) && c in spec.puzzle.constraints && c.AllDifferentConstraint?
    ensures NoDuplicates(c.variables) && forall v :: v in c.variables ==> v in state.candidates
  {
    hide ValidGivens, ValidAnchor, HasBijection, PuzzleState.Structural, HasSolution, ListsDiffer, AllAgree;
    assert ValidConstraint(spec, c);
    forall v | v in c.variables ensures v in state.candidates {
      assert v in Elements(c.variables);
    }
  }

  // ----- order clues with two open items -----

  /** A candidate of one of two open items without a partner among the candidates of the other. */
  predicate Bounded(spec: GridSpec, state: PuzzleState, e: BooleanExpression, conclusion: Atom, premises: set<Atom>)
    requires Shaped(spec)
  {
    BothVariables(e) && conclusion.ExclusionAtom? && premises == {}
    && var v, w, rows := e.left.variable, e.right.variable, Ordinals(Anchor(spec));
       && v != w && Open(state, v) && Open(state, w)
       && ((conclusion.variable == v && May(state, v, conclusion.value)
            && !Partnered(e.relation, conclusion.value, state.candidates[w], rows, true))
           || (conclusion.variable == w && May(state, w, conclusion.value)
               && !Partnered(e.relation, conclusion.value, state.candidates[v], rows, false)))
  }

  lemma {:induction false} ExcludingExactly(v: VariableId, xs: set<ValueId>, cited: seq<Atom>, id: ConstraintId,
      conclusion: Atom, premises: set<Atom>)
    ensures Found(Collected(Ascending(xs), Excluding(v, cited, id)), conclusion, premises) <==>
      && conclusion.ExclusionAtom? && conclusion.variable == v && conclusion.value in xs && premises == Elements(cited)
  {
    hide Found, Elements, Ascending, Collected;
    var values, each := Ascending(xs), Excluding(v, cited, id);
    FoundCollected(values, each, conclusion, premises);
    forall x ensures x in values <==> x in xs {
      AscendingMember(xs, x);
    }
    forall i | 0 <= i < |values|
      ensures Found(each(values[i]), conclusion, premises) <==> conclusion == ExclusionAtom(v, values[i]) && premises == Elements(cited)
    {
      FoundOne(Finding(ExclusionAtom(v, values[i]), cited, id), conclusion, premises);
    }
    if conclusion.ExclusionAtom? && conclusion.value in xs {
      var i :| 0 <= i < |values| && values[i] == conclusion.value;
    }
    forall i | 0 <= i < |values| ensures values[i] in xs {
      var x := values[i];
      assert x in values;
    }
  }

  lemma {:induction false} AscendingMember(xs: set<int>, x: int)
    ensures x in Ascending(xs) <==> x in xs
  {
  }

  lemma {:induction false} BoundsExactly(spec: GridSpec, state: PuzzleState, c: Constraint, conclusion: Atom,
      premises: set<Atom>)
    requires Shaped(spec) && c.ArithmeticConstraint? && TechniqueOf(c.expression).Ordering?
    requires BothVariables(c.expression) ==> c.expression.left.variable in state.candidates && c.expression.right.variable in state.candidates
    ensures Found(BoundFindings(c, state, Ordinals(Anchor(spec))), conclusion, premises)
      <==> Bounded(spec, state, c.expression, conclusion, premises)
  {
    hide Found, Ascending, Collected, OutOfBounds, Ordinals, Anchor, Partnered, Elements;
    NothingFound(conclusion, premises);
    if BothVariables(c.expression) {
      var v, w := c.expression.left.variable, c.expression.right.variable;
      var left, right, rows := state.candidates[v], state.candidates[w], Ordinals(Anchor(spec));
      if v != w && Open(state, v) && Open(state, w) {
        BoundsAreExact(c.expression.relation, left, right, rows);
        var (ls, rs) := OutOfBounds(c.expression.relation, left, right, rows);
        var below, above := Collected(Ascending(ls), Excluding(v, [], c.id)), Collected(Ascending(rs), Excluding(w, [], c.id));
        FoundJoins(below, above, conclusion, premises);
        ExcludingExactly(v, ls, [], c.id, conclusion, premises);
        ExcludingExactly(w, rs, [], c.id, conclusion, premises);
        NoElements<Atom>();
      }
    }
  }

  // ----- clues with one open item -----

  /** The clue is true of an assignment that takes `x` for `v` and candidates for the other items of the clue. */
  ghost predicate Fits(spec: GridSpec, state: PuzzleState, c: Constraint, v: VariableId, x: ValueId)
    requires Shaped(spec) && spec.puzzle.WellFormed() && c.ArithmeticConstraint?
  {
    exists a :: Takes(spec, state, c.expression, v, x, a) && ConstraintHolds(spec.puzzle, c, a)
  }

  ghost predicate Takes(spec: GridSpec, state: PuzzleState, e: BooleanExpression, v: VariableId, x: ValueId,
      a: Assignment)
    requires Shaped(spec) && spec.puzzle.WellFormed()
  {
    Complete(spec.puzzle, a) && v in a && a[v] == x
    && forall w :: w in BooleanVariables(e) && w != v ==> w in a && May(state, w, a[w])
  }

  ghost function FittingRows(spec: GridSpec, state: PuzzleState, c: Constraint, v: VariableId): set<ValueId>
    requires Shaped(spec) && spec.puzzle.WellFormed() && c.ArithmeticConstraint? && v in state.candidates
  {
    set x | x in state.candidates[v] && Fits(spec, state, c, v, x)
  }

  /** The rows the other items of the clue are on. */
  function SettledRows(state: PuzzleState, vs: set<VariableId>, v: VariableId): set<Atom> {
    set w | w in vs && w != v && w in state.candidates && |state.candidates[w]| == 1 :: AssignmentAtom(w, TheOnly(state.candidates[w]))
  }

  /** With one open item left in the clue, its row if only one fits, and otherwise no row that does not fit. */
  ghost predicate CompletedBy(spec: GridSpec, state: PuzzleState, c: Constraint, conclusion: Atom, premises: set<Atom>)
    requires Shaped(spec) && spec.puzzle.WellFormed() && c.ArithmeticConstraint?
  {
    var vs := BooleanVariables(c.expression);
    !conclusion.OtherAtom?
    && var v, x := conclusion.variable, conclusion.value;
       && v in vs && Open(state, v) && (forall w :: w in vs && w != v ==> !Open(state, w))
       && premises == SettledRows(state, vs, v)
       && (conclusion.AssignmentAtom? ==> FittingRows(spec, state, c, v) == {x})
       && (conclusion.ExclusionAtom? ==>
             |FittingRows(spec, state, c, v)| > 1 && May(state, v, x) && !Fits(spec, state, c, v, x))
  }

  lemma {:induction false} TrialMeansFits(spec: GridSpec, state: PuzzleState, c: Constraint, v: VariableId, x: ValueId)
    requires Live(spec, state) && c in spec.puzzle.constraints && c.ArithmeticConstraint? && c.id in state.active
    requires Unresolved(c.expression, state) == {v} && v in state.candidates && x in state.candidates[v]
    ensures Trial(c.expression, v, x, state, Anchor(spec)) == Some(true) <==> Fits(spec, state, c, v, x)
  {
    hide Judge, Trial, BooleanVariables, ValidCategories, ValidGivens, ValidAnchor, HasBijection, ConstraintHolds, Admitted,
      ListsDiffer, AllAgree, PuzzleState.Structural, Solution, Anchor, Unresolved;
    var e := c.expression;
    assert ValidConstraint(spec, c);
    var b :| Solution(spec.puzzle, state, b);
    var a := b[v := x];
    TakesCandidate(spec, state, c, v, x, b);
    ClueAgrees(spec, e, a);
    TrialReadsCandidate(spec, state, e, v, a) by { TakesMeans(spec, state, e, v, x, a); }
    if other :| Takes(spec, state, e, v, x, other) && ConstraintHolds(spec.puzzle, c, other) {
      ClueHoldsOf(spec, c, other);
      ClueAgrees(spec, e, other);
      TrialReadsCandidate(spec, state, e, v, other) by { TakesMeans(spec, state, e, v, x, other); }
    }
    if Trial(e, v, x, state, Anchor(spec)) == Some(true) {
      ClueHoldsOf(spec, c, a);
    }
  }

  lemma {:induction false} ClueHoldsOf(spec: GridSpec, c: Constraint, a: Assignment)
    requires Valid(spec) && c.ArithmeticConstraint? && Complete(spec.puzzle, a)
    ensures ConstraintHolds(spec.puzzle, c, a) <==>
      ClueHolds(spec.puzzle.family, c.expression, CodesOf(spec.puzzle, a), Table(spec.puzzle))
  {
    hide ValidCategories, ValidGivens, ValidConstraints, ValidAnchor, ClueHolds, CodesOf;
  }

  lemma {:induction false} TakesMeans(spec: GridSpec, state: PuzzleState, e: BooleanExpression, v: VariableId,
      x: ValueId, a: Assignment)
    requires Shaped(spec) && spec.puzzle.WellFormed() && Takes(spec, state, e, v, x, a) && Unresolved(e, state) == {v}
    ensures BooleanVariables(e) <= a.Keys && a[v] == x
    ensures forall w :: w in BooleanVariables(e) && w != v ==> a[w] in Possible(state, w)
  {
    hide BooleanVariables, Complete;
    forall w | w in BooleanVariables(e) ensures w in a {
      assert w == v || w != v;
    }
  }

  lemma {:induction false} TakesCandidate(spec: GridSpec, state: PuzzleState, c: Constraint, v: VariableId, x: ValueId,
      b: Assignment)
    requires Live(spec, state) && c in spec.puzzle.constraints && c.ArithmeticConstraint? && c.id in state.active
    requires Solution(spec.puzzle, state, b) && v in state.candidates && x in state.candidates[v]
    ensures Takes(spec, state, c.expression, v, x, b[v := x]) && BooleanVariables(c.expression) <= b.Keys
  {
    hide Judge, BooleanVariables, ValidCategories, ValidGivens, ValidAnchor, HasBijection, ConstraintHolds, Admitted, ListsDiffer,
      AllAgree, PuzzleState.Structural;
    ClueIsTrue(spec, state, c, b);
    var a := b[v := x];
    assert x in Ids(spec.puzzle, v) by {
      OpenIsRows(spec, state, v);
      GridIds(spec, v);
    }
    forall w | w in a ensures a[w] in Ids(spec.puzzle, w) {
    }
  }

  lemma {:induction false} PremisesAre(vs: seq<VariableId>, state: PuzzleState)
    ensures Elements(PremisesOf(vs, state)) ==
      set w | w in vs && w in state.candidates && |state.candidates[w]| == 1 :: AssignmentAtom(w, TheOnly(state.candidates[w]))
  {
    if vs != [] {
      var w := vs[0];
      PremisesAre(vs[1..], state);
      assert vs == [w] + vs[1..];
      if |Possible(state, w)| == 1 {
        ElementsJoin(AssignmentAtom(w, TheOnly(Possible(state, w))), PremisesOf(vs[1..], state));
      }
    }
  }

  lemma {:induction false} PassingFits(spec: GridSpec, state: PuzzleState, c: Constraint, v: VariableId)
    requires Live(spec, state) && c in spec.puzzle.constraints && c.ArithmeticConstraint? && c.id in state.active
    requires Unresolved(c.expression, state) == {v} && v in state.candidates && spec.puzzle.WellFormed()
    ensures Passing(c.expression, v, state, Anchor(spec)) == FittingRows(spec, state, c, v)
  {
    hide Live, Trial, BooleanVariables, Fits, Anchor, Puzzle.WellFormed, Valid, Shaped, Unresolved;
    LiveParts(spec, state);
    forall x | x in state.candidates[v]
      ensures Trial(c.expression, v, x, state, Anchor(spec)) == Some(true) <==> Fits(spec, state, c, v, x)
    {
      TrialMeansFits(spec, state, c, v, x);
    }
  }

  /** The only valid row, or else the rows that are not valid. */
  ghost predicate Splits(v: VariableId, domain: set<ValueId>, valid: set<ValueId>, conclusion: Atom) {
    match conclusion
    case AssignmentAtom(u, x) => u == v && valid == {x}
    case ExclusionAtom(u, x) => u == v && |valid| > 1 && x in domain && x !in valid
    case OtherAtom(_) => false
  }

  function SplitFindings(id: ConstraintId, v: VariableId, domain: set<ValueId>, valid: set<ValueId>,
      cited: seq<Atom>): seq<Finding> {
    if valid == {} then []
    else if |valid| == 1 then [Finding(AssignmentAtom(v, TheOnly(valid)), cited, id)]
    else Collected(Ascending(domain - valid), Excluding(v, cited, id))
  }

  lemma {:induction false} SplitExactly(id: ConstraintId, v: VariableId, domain: set<ValueId>, valid: set<ValueId>,
      cited: seq<Atom>, conclusion: Atom, premises: set<Atom>)
    ensures Found(SplitFindings(id, v, domain, valid, cited), conclusion, premises)
      <==> Splits(v, domain, valid, conclusion) && premises == Elements(cited)
  {
    hide Found, Elements, Ascending, Collected;
    NothingFound(conclusion, premises);
    if |valid| == 1 {
      FoundOne(Finding(AssignmentAtom(v, TheOnly(valid)), cited, id), conclusion, premises);
      OnlyMember(valid, TheOnly(valid));
    } else if valid != {} {
      ExcludingExactly(v, domain - valid, cited, id, conclusion, premises);
      NoSingle(valid);
    }
  }

  lemma {:induction false} CompletedExactly(spec: GridSpec, state: PuzzleState, c: Constraint, v: VariableId,
      conclusion: Atom, premises: set<Atom>)
    requires Live(spec, state) && c in spec.puzzle.constraints && c.ArithmeticConstraint? && c.id in state.active
    requires Unresolved(c.expression, state) == {v} && v in state.candidates && spec.puzzle.WellFormed()
    ensures Found(Completed(c, v, state, Anchor(spec)), conclusion, premises)
      <==> CompletedBy(spec, state, c, conclusion, premises)
  {
    hide Live, Found, Passing, BooleanVariables, Ascending, Collected, Fits, Anchor, PremisesOf, Puzzle.WellFormed, Valid, Elements,
      Shaped, Unresolved, Splits, SettledRows;
    LiveParts(spec, state);
    var vs := BooleanVariables(c.expression);
    var cited, valid := PremisesOf(Ascending(vs - {v}), state), Passing(c.expression, v, state, Anchor(spec));
    PassingFits(spec, state, c, v);
    SettledAre(state, vs, v);
    assert Possible(state, v) == state.candidates[v];
    assert Completed(c, v, state, Anchor(spec)) == SplitFindings(c.id, v, state.candidates[v], valid, cited);
    SplitExactly(c.id, v, state.candidates[v], valid, cited, conclusion, premises);
    OnlyOpen(state, vs, v, c.expression);
    SplitsMeansCompleted(spec, state, c, v, conclusion, premises);
  }

  lemma {:induction false} SplitsMeansCompleted(spec: GridSpec, state: PuzzleState, c: Constraint, v: VariableId,
      conclusion: Atom, premises: set<Atom>)
    requires Shaped(spec) && spec.puzzle.WellFormed() && c.ArithmeticConstraint? && v in state.candidates
    requires v in BooleanVariables(c.expression) && Open(state, v)
    requires forall w :: w in BooleanVariables(c.expression) && w != v ==> !Open(state, w)
    ensures CompletedBy(spec, state, c, conclusion, premises) <==>
      && Splits(v, state.candidates[v], FittingRows(spec, state, c, v), conclusion)
      && premises == SettledRows(state, BooleanVariables(c.expression), v)
  {
    hide Fits, BooleanVariables, Shaped, Puzzle.WellFormed, SettledRows;
  }

  lemma {:induction false} OnlyOpen(state: PuzzleState, vs: set<VariableId>, v: VariableId, e: BooleanExpression)
    requires vs == BooleanVariables(e) && Unresolved(e, state) == {v}
    ensures v in vs && Open(state, v) && forall w :: w in vs && w != v ==> !Open(state, w)
  {
    hide BooleanVariables;
    assert v in Unresolved(e, state);
    forall w | w in vs && w != v ensures !Open(state, w) {
      assert w !in Unresolved(e, state);
    }
  }

  lemma {:induction false} SettledAre(state: PuzzleState, vs: set<VariableId>, v: VariableId)
    ensures Elements(PremisesOf(Ascending(vs - {v}), state)) == SettledRows(state, vs, v)
  {
    hide Elements, PremisesOf, Ascending;
    var rest := Ascending(vs - {v});
    PremisesAre(rest, state);
    forall w ensures w in rest <==> w in vs && w != v {
      AscendingMember(vs - {v}, w);
    }
  }

  // ----- which clue is which rule's -----

  /** The kind of a clue: equations and disequations of two items, other equations, order clues, compounds. */
  predicate IsKind(e: BooleanExpression, technique: Technique) {
    if !e.Comparison? then technique.CompoundLogic?
    else if e.relation.Equal? || e.relation.NotEqual?
    then if e.left.VariableReference? && e.right.VariableReference? then technique.Association? else technique.NumericRelation?
    else technique.Ordering?
  }

  /** What a rule says about one constraint, and nothing unless the constraint is active and of its kind. */
  ghost predicate Says(spec: GridSpec, state: PuzzleState, technique: Technique, c: Constraint, conclusion: Atom,
      premises: set<Atom>)
    requires Shaped(spec) && spec.puzzle.WellFormed()
  {
    c.id in state.active
    && match c
       case AllDifferentConstraint(_, vs) =>
         technique.CategoryBijection?
         && (RowTaken(state, vs, conclusion, premises) || RowHidden(state, vs, conclusion, premises))
       case ArithmeticConstraint(_, e) =>
         IsKind(e, technique)
         && if technique.Association? then
              var v, w := e.left.variable, e.right.variable;
              if e.relation.Equal?
              then Matched(state, v, w, conclusion, premises) || Matched(state, w, v, conclusion, premises)
              else Mismatched(state, v, w, conclusion, premises) || Mismatched(state, w, v, conclusion, premises)
            else
              || (technique.Ordering? && Bounded(spec, state, e, conclusion, premises))
              || CompletedBy(spec, state, c, conclusion, premises)
       case _ => false
  }

  lemma {:induction false} ClueVariablesKnown(spec: GridSpec, state: PuzzleState, c: Constraint)
    requires Live(spec, state) && c in spec.puzzle.constraints && c.ArithmeticConstraint?
    ensures BooleanVariables(c.expression) <= state.candidates.Keys
    ensures BothVariables(c.expression) ==>
      c.expression.left.variable in state.candidates && c.expression.right.variable in state.candidates
  {
    hide Judge, BooleanVariables, ValidCategories, ValidGivens, ValidAnchor, HasBijection, Admitted, ListsDiffer, AllAgree,
      PuzzleState.Structural, HasSolution;
    assert ValidConstraint(spec, c);
    AdmittedIsKnown(spec, c.expression);
    if BothVariables(c.expression) {
      PairIsNamed(c.expression);
    }
  }

  lemma {:induction false} PairIsNamed(e: BooleanExpression)
    requires BothVariables(e)
    ensures e.left.variable in BooleanVariables(e) && e.right.variable in BooleanVariables(e)
    ensures BooleanVariables(e) == {e.left.variable, e.right.variable}
  {
    assert NumericVariables(e.left) == {e.left.variable} && NumericVariables(e.right) == {e.right.variable};
  }

  lemma {:induction false} AdmittedIsKnown(spec: GridSpec, e: BooleanExpression)
    requires Shaped(spec) && Admitted(e, spec.puzzle.variables.Keys, spec.ordered, Numeric(spec))
    ensures BooleanVariables(e) <= spec.puzzle.variables.Keys
  {
    hide Admitted, BooleanVariables, Shaped, Numeric;
    Tables.AdmittedIsSupported(e, spec.puzzle.variables.Keys, spec.ordered, Numeric(spec));
  }

  lemma {:induction false} AssociationsExactly(spec: GridSpec, state: PuzzleState, c: Constraint, conclusion: Atom,
      premises: set<Atom>)
    requires Live(spec, state) && c in spec.puzzle.constraints && c.ArithmeticConstraint?
    requires spec.puzzle.WellFormed() && IsKind(c.expression, Association)
    ensures Found(Associations(c, state), conclusion, premises) <==> Says(spec, state, Association, c, conclusion, premises)
  {
    hide Live, Found, Matches, Mismatch, Matched, Mismatched, Puzzle.WellFormed;
    NothingFound(conclusion, premises);
    ClueVariablesKnown(spec, state, c);
    var v, w := c.expression.left.variable, c.expression.right.variable;
    if c.expression.relation.Equal? {
      FoundJoins(Matches(c.id, v, w, state), Matches(c.id, w, v, state), conclusion, premises);
      MatchesExactly(spec, state, c.id, v, w, conclusion, premises);
      MatchesExactly(spec, state, c.id, w, v, conclusion, premises);
    } else {
      FoundJoins(Mismatch(c.id, v, w, state), Mismatch(c.id, w, v, state), conclusion, premises);
      MismatchExactly(state, c.id, v, w, conclusion, premises);
      MismatchExactly(state, c.id, w, v, conclusion, premises);
    }
  }

  lemma {:induction false} OpenIsUnresolved(state: PuzzleState, e: BooleanExpression)
    ensures forall v :: v in Unresolved(e, state) <==> v in BooleanVariables(e) && Open(state, v)
  {
    hide BooleanVariables;
  }

  /** With no open item, or several, nothing is completed. */
  lemma {:induction false} CompletedNeedsOne(spec: GridSpec, state: PuzzleState, c: Constraint, conclusion: Atom,
      premises: set<Atom>)
    requires Shaped(spec) && spec.puzzle.WellFormed() && c.ArithmeticConstraint?
    requires CompletedBy(spec, state, c, conclusion, premises)
    ensures Unresolved(c.expression, state) == {conclusion.variable}
  {
    hide BooleanVariables, Fits, Shaped, Puzzle.WellFormed, Unresolved;
    OpenIsUnresolved(state, c.expression);
    var v, open := conclusion.variable, Unresolved(c.expression, state);
    forall w ensures w in open <==> w in {v} {
      assert w in open <==> w in BooleanVariables(c.expression) && Open(state, w);
    }
  }

  lemma {:induction false} BoundedNeedsTwo(spec: GridSpec, state: PuzzleState, e: BooleanExpression, conclusion: Atom,
      premises: set<Atom>)
    requires Shaped(spec) && Bounded(spec, state, e, conclusion, premises)
    ensures |Unresolved(e, state)| == 2
  {
    hide BooleanVariables, Shaped, Unresolved, Partnered, Ordinals;
    OpenIsUnresolved(state, e);
    PairIsNamed(e);
    var open, pair := Unresolved(e, state), {e.left.variable, e.right.variable};
    forall w ensures w in open <==> w in pair {
      assert w in open <==> w in BooleanVariables(e) && Open(state, w);
    }
    assert open == pair;
  }

  lemma {:induction false} CompletionsExactly(spec: GridSpec, state: PuzzleState, technique: Technique, c: Constraint,
      conclusion: Atom, premises: set<Atom>)
    requires Live(spec, state) && c in spec.puzzle.constraints && c.ArithmeticConstraint? && c.id in state.active
    requires spec.puzzle.WellFormed() && TechniqueOf(c.expression) == technique
    ensures Found(Completions(technique, c, state, Anchor(spec)), conclusion, premises) <==>
      || (technique.Ordering? && Bounded(spec, state, c.expression, conclusion, premises))
      || CompletedBy(spec, state, c, conclusion, premises)
  {
    hide Live, Found, Completed, BoundFindings, CompletedBy, Bounded, Unresolved, Anchor, Ordinals, Puzzle.WellFormed,
      Valid, Shaped;
    LiveParts(spec, state);
    NothingFound(conclusion, premises);
    ClueVariablesKnown(spec, state, c);
    var unresolved := Unresolved(c.expression, state);
    if CompletedBy(spec, state, c, conclusion, premises) {
      CompletedNeedsOne(spec, state, c, conclusion, premises);
    }
    if Bounded(spec, state, c.expression, conclusion, premises) {
      BoundedNeedsTwo(spec, state, c.expression, conclusion, premises);
    }
    if |unresolved| == 2 && technique.Ordering? {
      BoundsExactly(spec, state, c, conclusion, premises);
    } else if |unresolved| == 1 {
      var v := TheOnly(unresolved);
      OnlyMember(unresolved, v);
      OpenIsUnresolved(state, c.expression);
      CompletedExactly(spec, state, c, v, conclusion, premises);
    }
  }

  lemma {:induction false} FindingsExactly(spec: GridSpec, state: PuzzleState, technique: Technique, c: Constraint,
      conclusion: Atom, premises: set<Atom>)
    requires Live(spec, state) && c in spec.puzzle.constraints && spec.puzzle.WellFormed()
    ensures Found(FindingsFor(technique, c, state, Anchor(spec)), conclusion, premises)
      <==> Says(spec, state, technique, c, conclusion, premises)
  {
    hide Live, Found, Valid, Puzzle.WellFormed, Shaped, Anchor, RowTaken, RowHidden, CompletedBy, Bounded, Matched,
      Mismatched;
    LiveParts(spec, state);
    NothingFound(conclusion, premises);
    if c.id in state.active && c.AllDifferentConstraint? && technique.CategoryBijection? {
      BijectionsExactly(spec, state, c, conclusion, premises);
    } else if c.id in state.active && c.ArithmeticConstraint? && IsKind(c.expression, technique) {
      KindIsTechnique(c.expression, technique);
      if technique.Association? {
        AssociationsExactly(spec, state, c, conclusion, premises);
      } else {
        CompletionsExactly(spec, state, technique, c, conclusion, premises);
      }
    } else {
      UnconcernedIsSilent(spec, state, technique, c);
    }
  }

  lemma {:induction false} KindIsTechnique(e: BooleanExpression, technique: Technique)
    ensures IsKind(e, technique) <==> TechniqueOf(e) == technique
    ensures IsKind(e, technique) ==> !technique.CategoryBijection?
  {
  }

  lemma {:induction false} UnconcernedIsSilent(spec: GridSpec, state: PuzzleState, technique: Technique, c: Constraint)
    requires Shaped(spec)
    requires c.id !in state.active || !(c.AllDifferentConstraint? && technique.CategoryBijection?)
    requires c.id !in state.active || !c.ArithmeticConstraint? || !IsKind(c.expression, technique)
    ensures FindingsFor(technique, c, state, Anchor(spec)) == []
  {
    hide Anchor, Shaped, Collected, Unresolved;
    if c.ArithmeticConstraint? {
      KindIsTechnique(c.expression, technique);
    }
  }

  // ----- what is discovered -----

  /** Rules are ranked in tens: direct associations first, compound clues last. */
  function RankOf(technique: Technique): nat {
    match technique
    case Association => 10
    case CategoryBijection => 20
    case Ordering => 30
    case NumericRelation => 40
    case CompoundLogic => 50
  }

  /** A discovered candidate of the rule that concludes `conclusion` from these premises and this constraint,
      gains what an assignment or an exclusion settles, and costs the rank of its rule. */
  ghost predicate Discovered(spec: GridSpec, state: PuzzleState, naming: Naming, technique: Technique, id: ConstraintId,
      conclusion: Atom, premises: set<Atom>)
    requires Shaped(spec)
  {
    Discover(spec.puzzle, state, GridRules(spec, naming)).Ok?
    && var found := Discover(spec.puzzle, state, GridRules(spec, naming)).value;
       exists k :: k in found && Expresses(k, state, technique, id, conclusion, premises)
  }

  ghost predicate Expresses(k: Candidate, state: PuzzleState, technique: Technique, id: ConstraintId, conclusion: Atom,
      premises: set<Atom>) {
    && !conclusion.OtherAtom? && k.tieBreak == AtomText(conclusion) && k.supporting == [id] && Elements(k.premises) == premises
    && NoDuplicates(k.premises) && k.source == OfState(state) && k.affected == [conclusion.variable]
    && k.rule == technique.Reference() && k.rule.rank == k.pedagogicalCost == RankOf(technique)
    && conclusion.variable in state.candidates
    && k.informationGain == if conclusion.AssignmentAtom? then |state.candidates[conclusion.variable]| - 1 else 1
  }

  lemma {:induction false} ListedIn(c: Constraint, cs: seq<Constraint>) returns (i: nat)
    requires c in cs
    ensures i < |cs| && cs[i] == c
  {
    i :| 0 <= i < |cs| && cs[i] == c;
  }

  /** In a live state the rules discover, from each constraint, exactly what is said about it above. */
  lemma {:induction false} DiscoveredExactly(spec: GridSpec, state: PuzzleState, naming: Naming, technique: Technique,
      c: Constraint, conclusion: Atom, premises: set<Atom>)
    requires Live(spec, state) && Distinguishes(naming, OfState(state)) && c in spec.puzzle.constraints
    requires Shaped(spec) && spec.puzzle.WellFormed()
    ensures Discover(spec.puzzle, state, GridRules(spec, naming)).Ok?
    ensures Discovered(spec, state, naming, technique, c.id, conclusion, premises)
      <==> Says(spec, state, technique, c, conclusion, premises)
  {
    hide Live, Distinguishes, Valid, Puzzle.WellFormed, Shaped, Anchor, Says, FindingsFor, Discover, Findings, Expresses, GridRules,
      CandidateFor;
    DiscoverySucceeds(spec, state, naming);
    FindingsExactly(spec, state, technique, c, conclusion, premises);
    if Says(spec, state, technique, c, conclusion, premises) {
      var f :| f in FindingsFor(technique, c, state, Anchor(spec)) && f.conclusion == conclusion && Elements(f.premises) == premises;
      FindingIsListed(spec, state, technique, c, f);
      FindingsAreDiscovered(spec, state, naming, technique, f);
      FindingIsExpressed(spec, state, naming, technique, c, f);
    }
    if Discovered(spec, state, naming, technique, c.id, conclusion, premises) {
      var k :| k in Discover(spec.puzzle, state, GridRules(spec, naming)).value && Expresses(k, state, technique, c.id, conclusion, premises);
      var t, d, f := CandidateIsFinding(spec, state, naming, k);
      FindingIsExpressed(spec, state, naming, t, d, f);
      SameExpression(spec, state, k, t, d, f, technique, c, conclusion, premises);
      assert f in FindingsFor(technique, c, state, Anchor(spec));
    }
  }

  lemma {:induction false} FindingIsListed(spec: GridSpec, state: PuzzleState, technique: Technique, c: Constraint,
      f: Finding)
    requires Live(spec, state) && c in spec.puzzle.constraints && Shaped(spec)
    requires f in FindingsFor(technique, c, state, Anchor(spec))
    ensures Findings(technique, spec, state).Ok? && f in Findings(technique, spec, state).value
  {
    hide Live, Valid, Shaped, Anchor, FindingsFor, Collected, Puzzle.WellFormed, SomeTrialRaises;
    RulesAreSound(technique, spec, state);
    var i := ListedIn(c, spec.puzzle.constraints);
    CollectedContains(spec.puzzle.constraints, Each(technique, state, Anchor(spec)), i, f);
  }

  lemma {:induction false} FindingIsExpressed(spec: GridSpec, state: PuzzleState, naming: Naming, technique: Technique,
      c: Constraint, f: Finding)
    requires Live(spec, state) && c in spec.puzzle.constraints && Shaped(spec)
    requires f in FindingsFor(technique, c, state, Anchor(spec))
    ensures !f.conclusion.OtherAtom? && f.constraint == c.id
    ensures Expresses(CandidateFor(technique, state, naming, f), state, technique, c.id, f.conclusion, Elements(f.premises))
  {
    hide Live, Valid, Shaped, Anchor, FindingsFor, Puzzle.WellFormed, Entails, Sort;
    LiveParts(spec, state);
    FindingsAreDeduced(technique, spec, state, c, f);
    SortKeeps(f.premises, PremiseOrder());
    PermutedDistinct(f.premises, Sort(f.premises, PremiseOrder()));
    SameElements(f.premises, Sort(f.premises, PremiseOrder()));
  }

  lemma {:induction false} SameElements<T>(s: seq<T>, t: seq<T>)
    requires forall x :: x in t <==> x in s
    ensures Elements(t) == Elements(s)
  {
  }

  /** Every candidate comes from a finding of one of the rules. */
  lemma {:induction false} CandidateIsFinding(spec: GridSpec, state: PuzzleState, naming: Naming, k: Candidate)
    returns (t: Technique, c: Constraint, f: Finding)
    requires Live(spec, state) && Distinguishes(naming, OfState(state)) && Shaped(spec)
    requires Discover(spec.puzzle, state, GridRules(spec, naming)).Ok?
    requires k in Discover(spec.puzzle, state, GridRules(spec, naming)).value
    ensures c in spec.puzzle.constraints && f in FindingsFor(t, c, state, Anchor(spec))
    ensures !f.conclusion.OtherAtom? && k == CandidateFor(t, state, naming, f)
  {
    hide Live, Valid, Shaped, Anchor, FindingsFor, Collected, Puzzle.WellFormed, Sort, Gather, Findings, CandidateFor, UniqueIds,
      UniqueIdentities;
    var rules := GridRules(spec, naming);
    SortKeeps(rules, RuleOrder());
    var ordered := Sort(rules, RuleOrder());
    SortKeeps(Gather(ordered, spec.puzzle, state).value, CanonicalOrder());
    var rule := GatheredFrom(ordered, spec.puzzle, state, k);
    assert rule in rules;
    var i :| 0 <= i < |rules| && rules[i] == rule;
    t := TECHNIQUES[i];
    f := RuleFindsFinding(spec, state, naming, t, k);
    c := FindingHasSource(spec, state, t, f);
  }

  lemma {:induction false} RuleFindsFinding(spec: GridSpec, state: PuzzleState, naming: Naming, t: Technique,
      k: Candidate)
    returns (f: Finding)
    requires Live(spec, state) && Distinguishes(naming, OfState(state)) && Shaped(spec)
    requires Checked(GridRule(t, spec, naming), spec.puzzle, state).Ok?
    requires k in Checked(GridRule(t, spec, naming), spec.puzzle, state).value
    ensures Findings(t, spec, state).Ok? && f in Findings(t, spec, state).value
    ensures !f.conclusion.OtherAtom? && k == CandidateFor(t, state, naming, f)
  {
    hide ValidCategories, ValidGivens, ValidConstraints, ValidAnchor, PuzzleState.Structural, HasSolution, ValidState,
      FromTechnique, UniqueIds, Distinguishes, Findings, CandidateFor;
    RulesAreSound(t, spec, state);
    var found := Findings(t, spec, state).value;
    forall j | 0 <= j < |found| ensures !found[j].conclusion.OtherAtom? {
      assert found[j] in found;
    }
    assert Find(t, spec, naming, state) == Ok(CandidatesFor(t, state, naming, found));
    var candidates := CandidatesFor(t, state, naming, found);
    var j :| 0 <= j < |candidates| && candidates[j] == k;
    f := found[j];
  }

  lemma {:induction false} FindingHasSource(spec: GridSpec, state: PuzzleState, t: Technique, f: Finding)
    returns (c: Constraint)
    requires Shaped(spec) && Findings(t, spec, state).Ok? && f in Findings(t, spec, state).value
    ensures c in spec.puzzle.constraints && f in FindingsFor(t, c, state, Anchor(spec))
  {
    hide Shaped, Anchor, FindingsFor, SomeTrialRaises;
    var i := CollectedMember(spec.puzzle.constraints, Each(t, state, Anchor(spec)), f);
    c := spec.puzzle.constraints[i];
  }

  lemma {:induction false} GatheredFrom(rules: seq<Rule>, puzzle: Puzzle, state: PuzzleState, k: Candidate)
    returns (rule: Rule)
    requires Gather(rules, puzzle, state).Ok? && k in Gather(rules, puzzle, state).value
    ensures rule in rules && Checked(rule, puzzle, state).Ok? && k in Checked(rule, puzzle, state).value
  {
    hide Checked;
    rule := rules[0];
    if k !in Checked(rules[0], puzzle, state).value {
      rule := GatheredFrom(rules[1..], puzzle, state, k);
    }
  }

  lemma {:induction false} SameExpression(spec: GridSpec, state: PuzzleState, k: Candidate, t: Technique, d: Constraint,
      f: Finding, technique: Technique, c: Constraint, conclusion: Atom, premises: set<Atom>)
    requires spec.puzzle.WellFormed() && c in spec.puzzle.constraints && d in spec.puzzle.constraints
    requires Expresses(k, state, technique, c.id, conclusion, premises)
    requires Expresses(k, state, t, d.id, f.conclusion, Elements(f.premises))
    ensures t == technique && d == c && f.conclusion == conclusion && Elements(f.premises) == premises
  {
    var i := ListedIn(c, spec.puzzle.constraints);
    var j := ListedIn(d, spec.puzzle.constraints);
    assert [c.id][0] == [d.id][0];
  }
}

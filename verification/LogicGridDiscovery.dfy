/** Discovery with the Logic Grid rules: it never fails, and every candidate becomes a valid proposal. */
module LogicGridDiscovery {
  import opened Prelude
  import opened Domain
  import opened State
  import opened Events
  import opened Solutions
  import opened Sorting
  import opened Rules
  import opened Grid
  import opened LogicGrid
  import opened LogicGridRules
  import opened LogicGridSoundness
  import opened Engine
  import EngineTheorems

  // ----- findings are told apart by conclusion and constraint -----

  ghost predicate Differ(f: Finding, g: Finding) {
    f.conclusion != g.conclusion || f.constraint != g.constraint
  }

  ghost predicate Apart(fs: seq<Finding>) {
    forall i, j :: 0 <= i < j < |fs| ==> Differ(fs[i], fs[j])
  }

  /** Nothing in one list repeats a finding of the other. */
  ghost predicate Separate(fs: seq<Finding>, gs: seq<Finding>) {
    forall f, g :: f in fs && g in gs ==> Differ(f, g)
  }

  lemma {:induction false} ApartJoin(fs: seq<Finding>, gs: seq<Finding>)
    requires Apart(fs) && Apart(gs) && Separate(fs, gs)
    ensures Apart(fs + gs)
  {
    var all := fs + gs;
    forall i, j | 0 <= i < j < |all| ensures Differ(all[i], all[j]) {
      if i < |fs| && j >= |fs| {
        assert all[i] in fs && all[j] in gs;
      }
    }
  }

  lemma {:induction false} CollectedApart<T>(items: seq<T>, f: T -> seq<Finding>)
    requires forall i :: 0 <= i < |items| ==> Apart(f(items[i]))
    requires forall i, j :: 0 <= i < j < |items| ==> Separate(f(items[i]), f(items[j]))
    ensures Apart(Collected(items, f))
  {
    if items != [] {
      var n := |items| - 1;
      CollectedApart(items[..n], f);
      forall g, h | g in Collected(items[..n], f) && h in f(items[n]) ensures Differ(g, h) {
        var i := CollectedMember(items[..n], f, g);
        assert Separate(f(items[i]), f(items[n]));
      }
      ApartJoin(Collected(items[..n], f), f(items[n]));
    }
  }

  lemma {:induction false} ExcludingApart(v: VariableId, xs: set<ValueId>, premises: seq<Atom>, id: ConstraintId)
    ensures Apart(Collected(Ascending(xs), Excluding(v, premises, id)))
  {
    CollectedApart(Ascending(xs), Excluding(v, premises, id));
  }

  lemma {:induction false} UnsharedApart(id: ConstraintId, v: VariableId, other: VariableId, xs: seq<ValueId>,
      state: PuzzleState)
    requires NoDuplicates(xs)
    ensures Apart(Collected(xs, EachUnshared(id, v, other, state)))
    ensures forall f :: f in Collected(xs, EachUnshared(id, v, other, state)) ==> f.conclusion.ExclusionAtom? && f.conclusion.variable == v
  {
    hide Absence;
    CollectedApart(xs, EachUnshared(id, v, other, state));
    forall f | f in Collected(xs, EachUnshared(id, v, other, state))
      ensures f.conclusion.ExclusionAtom? && f.conclusion.variable == v
    {
      var i := CollectedMember(xs, EachUnshared(id, v, other, state), f);
    }
  }

  lemma {:induction false} MatchesApart(id: ConstraintId, v: VariableId, other: VariableId, state: PuzzleState)
    ensures Apart(Matches(id, v, other, state))
    ensures forall f :: f in Matches(id, v, other, state) ==> !f.conclusion.OtherAtom? && f.conclusion.variable == v
  {
    hide Possible, ValueAbsences, Unshared, EachUnshared;
    var domain, shared := Possible(state, v), Possible(state, v) * Possible(state, other);
    AscendingElements(domain - shared);
    UnsharedApart(id, v, other, Ascending(domain - shared), state);
    hide Ascending;
  }

  /** An item always matches itself. */
  lemma {:induction false} SelfMatchSaysNothing(id: ConstraintId, v: VariableId, state: PuzzleState)
    ensures Matches(id, v, v, state) == []
  {
    var domain := Possible(state, v);
    assert domain * domain == domain;
    assert domain - domain == {};
  }

  lemma {:induction false} AssociationsApart(c: Constraint, state: PuzzleState)
    ensures Apart(Associations(c, state))
  {
    hide Matches;
    if c.ArithmeticConstraint? && c.id in state.active && TechniqueOf(c.expression).Association? {
      var left, right := c.expression.left.variable, c.expression.right.variable;
      if c.expression.relation.Equal? {
        MatchesApart(c.id, left, right, state);
        MatchesApart(c.id, right, left, state);
        SelfMatchSaysNothing(c.id, left, state);
        ApartJoin(Matches(c.id, left, right, state), Matches(c.id, right, left, state));
      } else {
        ApartJoin(Mismatch(c.id, left, right, state), Mismatch(c.id, right, left, state));
      }
    }
  }

  lemma {:induction false} OccupiedByApart(id: ConstraintId, vs: seq<VariableId>, fixed: VariableId, state: PuzzleState)
    requires NoDuplicates(vs)
    ensures Apart(OccupiedBy(id, vs, fixed, state))
    ensures forall f :: f in OccupiedBy(id, vs, fixed, state) ==>
      |Possible(state, fixed)| == 1 && f.conclusion.ExclusionAtom? && f.conclusion.value == TheOnly(Possible(state, fixed))
  {
    CollectedApart(vs, EachOccupied(id, fixed, state));
    forall f | f in OccupiedBy(id, vs, fixed, state)
      ensures
        && |Possible(state, fixed)| == 1
        && f.conclusion.ExclusionAtom?
        && f.conclusion.value == TheOnly(Possible(state, fixed))
    {
      var i := CollectedMember(vs, EachOccupied(id, fixed, state), f);
    }
  }

  lemma {:induction false} AllOccupiedApart(spec: GridSpec, state: PuzzleState, c: Constraint)
    requires Valid(spec) && state.Structural() && ValidState(state, spec.puzzle)
    requires c in spec.puzzle.constraints && c.AllDifferentConstraint?
    ensures Apart(Collected(c.variables, EachFixed(c.id, c.variables, state)))
    ensures forall f :: f in Collected(c.variables, EachFixed(c.id, c.variables, state)) ==> f.conclusion.ExclusionAtom?
  {
    hide ValidState, PuzzleState.Structural, ValidCategories, ValidGivens, ValidConstraints, ValidAnchor, OccupiedBy;
    var vs, each := c.variables, EachFixed(c.id, c.variables, state);
    CategorySize(spec, c);
    forall i | 0 <= i < |vs| ensures Apart(each(vs[i])) {
      OccupiedByApart(c.id, vs, vs[i], state);
    }
    forall i, j | 0 <= i < j < |vs| ensures Separate(each(vs[i]), each(vs[j])) {
      OccupiedByApart(c.id, vs, vs[i], state);
      OccupiedByApart(c.id, vs, vs[j], state);
      if |Possible(state, vs[i])| == 1 {
        ClashingRows(spec, state, c, i, j, TheOnly(Possible(state, vs[i])));
      }
    }
    CollectedApart(vs, each);
    forall f | f in Collected(vs, each) ensures f.conclusion.ExclusionAtom? {
      var i := CollectedMember(vs, each, f);
      OccupiedByApart(c.id, vs, vs[i], state);
    }
  }

  lemma {:induction false} HiddenApart(id: ConstraintId, vs: seq<VariableId>, xs: seq<ValueId>, state: PuzzleState)
    requires NoDuplicates(xs)
    ensures Apart(Collected(xs, EachHidden(id, vs, state)))
    ensures forall f :: f in Collected(xs, EachHidden(id, vs, state)) ==> f.conclusion.AssignmentAtom?
  {
    CollectedApart(xs, EachHidden(id, vs, state));
    forall f | f in Collected(xs, EachHidden(id, vs, state)) ensures f.conclusion.AssignmentAtom? {
      var i := CollectedMember(xs, EachHidden(id, vs, state), f);
    }
  }

  lemma {:induction false} BijectionsApart(spec: GridSpec, state: PuzzleState, c: Constraint)
    requires Valid(spec) && state.Structural() && ValidState(state, spec.puzzle) && c in spec.puzzle.constraints
    ensures Apart(Bijections(c, state))
  {
    hide Valid, ValidState, PuzzleState.Structural;
    if c.AllDifferentConstraint? && c.id in state.active {
      AllOccupiedApart(spec, state, c);
      var xs := Ascending(AllValues(c.variables, state));
      AscendingElements(AllValues(c.variables, state));
      HiddenApart(c.id, c.variables, xs, state);
      ApartJoin(Collected(c.variables, EachFixed(c.id, c.variables, state)),
                Collected(xs, EachHidden(c.id, c.variables, state)));
    }
  }

  lemma {:induction false} CompletionsApart(technique: Technique, c: Constraint, state: PuzzleState,
      anchor: seq<DomainValue>)
    ensures Apart(Completions(technique, c, state, anchor))
  {
    hide Trial, Unresolved, BooleanVariables, OutOfBounds, PremisesOf, Ascending, Apart, Ordinals;
    if Concerns(technique, c, state) {
      var unresolved := Unresolved(c.expression, state);
      if |unresolved| == 2 && technique.Ordering? {
        BoundsApart(c, state, Ordinals(anchor));
      } else if |unresolved| == 1 {
        CompletedApart(c, TheOnly(unresolved), state, anchor);
      } else {
        NothingApart();
      }
    } else {
      NothingApart();
    }
  }

  lemma {:induction false} NothingApart()
    ensures Apart([])
  {
  }

  lemma {:induction false} CompletedApart(c: Constraint, v: VariableId, state: PuzzleState, anchor: seq<DomainValue>)
    requires c.ArithmeticConstraint?
    ensures Apart(Completed(c, v, state, anchor))
  {
    var premises := PremisesOf(Ascending(BooleanVariables(c.expression) - {v}), state);
    ExcludingApart(v, Possible(state, v) - Passing(c.expression, v, state, anchor), premises, c.id);
  }

  lemma {:induction false} BoundsApart(c: Constraint, state: PuzzleState, metrics: map<ValueId, int>)
    requires c.ArithmeticConstraint?
    ensures Apart(BoundFindings(c, state, metrics))
  {
    hide OutOfBounds, Ascending;
    if BothVariables(c.expression) {
      var v, w := c.expression.left.variable, c.expression.right.variable;
      var left, right := Possible(state, v), Possible(state, w);
      if v != w && |left| > 1 && |right| > 1 {
        var (ls, rs) := OutOfBounds(c.expression.relation, left, right, metrics);
        ExcludingApart(v, ls, [], c.id);
        ExcludingApart(w, rs, [], c.id);
        var below, above := Collected(Ascending(ls), Excluding(v, [], c.id)), Collected(Ascending(rs), Excluding(w, [], c.id));
        forall f, g | f in below && g in above ensures Differ(f, g) {
          ExcludedMember(v, ls, [], c.id, f);
          ExcludedMember(w, rs, [], c.id, g);
        }
        ApartJoin(below, above);
      }
    }
  }

  lemma {:induction false} FindingsApart(technique: Technique, spec: GridSpec, state: PuzzleState, c: Constraint)
    requires Valid(spec) && state.Structural() && ValidState(state, spec.puzzle) && c in spec.puzzle.constraints
    ensures Apart(FindingsFor(technique, c, state, Anchor(spec)))
  {
    hide Associations, Bijections, Completions, ValidCategories, ValidGivens, ValidConstraints, ValidAnchor,
      ValidState, PuzzleState.Structural, Anchor, Apart;
    match technique
    case Association => AssociationsApart(c, state);
    case CategoryBijection => BijectionsApart(spec, state, c);
    case _ => CompletionsApart(technique, c, state, Anchor(spec));
  }

  /** Soundness of the rules: in a live state no rule raises, every finding is deduced, and no two are
      the same. */
  lemma {:induction false} RulesAreSound(technique: Technique, spec: GridSpec, state: PuzzleState)
    requires Live(spec, state)
    ensures Findings(technique, spec, state).Ok?
    ensures Apart(Findings(technique, spec, state).value)
    ensures forall f :: f in Findings(technique, spec, state).value ==>
      exists c :: c in spec.puzzle.constraints && Deduced(f, c, spec, state)
  {
    hide ValidCategories, ValidGivens, ValidConstraints, ValidAnchor, ValidState, PuzzleState.Structural, HasSolution,
      FindingsFor, TrialRaises, Deduced, Apart;
    var cs := spec.puzzle.constraints;
    var each := Each(technique, state, Anchor(spec));
    forall i | 0 <= i < |cs| ensures !TrialRaises(technique, cs[i], state, Anchor(spec)) {
      TrialsNeverRaise(technique, spec, state, cs[i]);
    }
    assert !SomeTrialRaises(technique, cs, state, Anchor(spec));
    forall i | 0 <= i < |cs| ensures Apart(each(cs[i])) {
      FindingsApart(technique, spec, state, cs[i]);
    }
    forall i, j | 0 <= i < j < |cs| ensures Separate(each(cs[i]), each(cs[j])) {
      DifferentConstraintsSeparate(technique, spec, state, cs[i], cs[j]);
    }
    CollectedApart(cs, each);
    forall f | f in Collected(cs, each) ensures exists c :: c in cs && Deduced(f, c, spec, state) {
      var i := CollectedMember(cs, each, f);
      FindingsAreDeduced(technique, spec, state, cs[i], f);
      assert cs[i] in cs;
    }
  }

  lemma {:induction false} DifferentConstraintsSeparate(technique: Technique, spec: GridSpec, state: PuzzleState,
      c: Constraint, d: Constraint)
    requires Valid(spec) && state.Structural() && ValidState(state, spec.puzzle)
    requires c in spec.puzzle.constraints && d in spec.puzzle.constraints && c.id != d.id
    ensures Separate(FindingsFor(technique, c, state, Anchor(spec)), FindingsFor(technique, d, state, Anchor(spec)))
  {
    hide FindingsFor, ValidState, PuzzleState.Structural, ValidCategories, ValidGivens, ValidConstraints, ValidAnchor;
    forall f, g | f in FindingsFor(technique, c, state, Anchor(spec)) && g in FindingsFor(technique, d, state, Anchor(spec))
      ensures Differ(f, g)
    {
      FindingsAreDeduced(technique, spec, state, c, f);
      FindingsAreDeduced(technique, spec, state, d, g);
    }
  }

  // ----- candidates -----

  /** Candidate names in one state tell conclusion, rule and constraint apart, as their digests do. */
  ghost predicate Distinguishes(naming: Naming, source: Digest) {
    forall x: Atom, t: Technique, i: ConstraintId, y: Atom, u: Technique, j: ConstraintId ::
      naming(x, t.Reference(), source, i) == naming(y, u.Reference(), source, j) ==> x == y && t == u && i == j
  }

  /** Two numbers as one: `b` doubled past an odd start, `a` times. */
  function Paired(a: nat, b: nat): nat {
    if a == 0 then 2 * b + 1 else 2 * Paired(a - 1, b)
  }

  lemma {:induction false} PairedApart(a: nat, b: nat, c: nat, d: nat)
    requires Paired(a, b) == Paired(c, d)
    ensures a == c && b == d
  {
    if a > 0 && c > 0 {
      PairedApart(a - 1, b, c - 1, d);
    }
  }

  function Folded(i: int): nat {
    if i >= 0 then 2 * i else -2 * i - 1
  }

  function AtomNumber(x: Atom): nat {
    match x
    case AssignmentAtom(v, value) => Paired(0, Paired(Folded(v), Folded(value)))
    case ExclusionAtom(v, value) => Paired(1, Paired(Folded(v), Folded(value)))
    case OtherAtom(content) => Paired(2, Folded(content))
  }

  lemma {:induction false} AtomNumbersApart(x: Atom, y: Atom)
    requires AtomNumber(x) == AtomNumber(y)
    ensures x == y
  {
    hide Paired;
    var tag, body := if x.AssignmentAtom? then 0 else if x.ExclusionAtom? then 1 else 2,
                     if x.OtherAtom? then Folded(x.content) else Paired(Folded(x.variable), Folded(x.value));
    var other, rest := if y.AssignmentAtom? then 0 else if y.ExclusionAtom? then 1 else 2,
                       if y.OtherAtom? then Folded(y.content) else Paired(Folded(y.variable), Folded(y.value));
    PairedApart(tag, body, other, rest);
    if !x.OtherAtom? {
      PairedApart(Folded(x.variable), Folded(x.value), Folded(y.variable), Folded(y.value));
    }
  }

  /** Names built from numbers tell everything apart, in every state: what is asked of digests can be met. */
  lemma {:induction false} NamingsExist() returns (naming: Naming)
    ensures forall source :: Distinguishes(naming, source)
  {
    hide Paired, AtomNumber, Folded;
    naming := (x: Atom, reference: RuleReference, source: Digest, i: ConstraintId) =>
      Paired(AtomNumber(x), Paired(Folded(reference.ruleId), Folded(i)));
    forall source, x: Atom, t: Technique, i: ConstraintId, y: Atom, u: Technique, j: ConstraintId |
      naming(x, t.Reference(), source, i) == naming(y, u.Reference(), source, j)
      ensures x == y && t == u && i == j
    {
      PairedApart(AtomNumber(x), Paired(Folded(t.RuleId()), Folded(i)),
                  AtomNumber(y), Paired(Folded(u.RuleId()), Folded(j)));
      PairedApart(Folded(t.RuleId()), Folded(i), Folded(u.RuleId()), Folded(j));
      AtomNumbersApart(x, y);
      FoldedApart(i, j);
      FoldedApart(t.RuleId(), u.RuleId());
    }
  }

  lemma {:induction false} FoldedApart(i: int, j: int)
    ensures Folded(i) == Folded(j) ==> i == j
  {
  }

  /** The candidate restates a deduced finding of the technique. */
  ghost predicate Restates(c: Candidate, technique: Technique, f: Finding, spec: GridSpec, state: PuzzleState,
      naming: Naming)
    requires spec.puzzle.WellFormed()
  {
    && !f.conclusion.OtherAtom? && c == CandidateFor(technique, state, naming, f)
    && exists k :: k in spec.puzzle.constraints && Deduced(f, k, spec, state)
  }

  ghost predicate FromTechnique(c: Candidate, technique: Technique, spec: GridSpec, state: PuzzleState, naming: Naming)
    requires spec.puzzle.WellFormed()
  {
    exists f :: Restates(c, technique, f, spec, state, naming)
  }

  lemma {:induction false} RuleFinds(technique: Technique, spec: GridSpec, state: PuzzleState, naming: Naming)
    requires Live(spec, state) && Distinguishes(naming, OfState(state))
    ensures Checked(GridRule(technique, spec, naming), spec.puzzle, state).Ok?
    ensures UniqueIds(Checked(GridRule(technique, spec, naming), spec.puzzle, state).value)
    ensures forall c :: c in Checked(GridRule(technique, spec, naming), spec.puzzle, state).value ==>
      FromTechnique(c, technique, spec, state, naming)
  {
    hide ValidCategories, ValidGivens, ValidConstraints, ValidAnchor, ValidState, PuzzleState.Structural, HasSolution,
      Findings, Entails, Disclosed, Sort;
    RulesAreSound(technique, spec, state);
    var fs := Findings(technique, spec, state).value;
    forall i | 0 <= i < |fs| ensures !fs[i].conclusion.OtherAtom? {
      assert fs[i] in fs;
    }
    var found := CandidatesFor(technique, state, naming, fs);
    assert Find(technique, spec, naming, state) == Ok(found);
    forall c | c in found ensures c.rule == technique.Reference() && c.source == OfState(state) && FromTechnique(c, technique, spec, state, naming) {
      var i :| 0 <= i < |found| && found[i] == c;
      assert fs[i] in fs;
      assert Restates(c, technique, fs[i], spec, state, naming);
    }
    NamesDiffer(technique, state, naming, fs);
  }

  lemma {:induction false} NamesDiffer(technique: Technique, state: PuzzleState, naming: Naming, fs: seq<Finding>)
    requires Distinguishes(naming, OfState(state)) && Apart(fs)
    requires forall i :: 0 <= i < |fs| ==> !fs[i].conclusion.OtherAtom?
    ensures UniqueIds(CandidatesFor(technique, state, naming, fs))
  {
    hide Technique.Reference;
    var found := CandidatesFor(technique, state, naming, fs);
    forall i, j | 0 <= i < j < |found| ensures found[i].id != found[j].id {
      assert Differ(fs[i], fs[j]);
    }
  }

  /** Each listed rule is the Logic Grid rule of one technique. */
  ghost predicate Registered(rules: seq<Rule>, techniques: seq<Technique>, spec: GridSpec, naming: Naming)
    requires Shaped(spec)
  {
    && |rules| == |techniques| && NoDuplicates(techniques)
    && forall i :: 0 <= i < |rules| ==> rules[i] == GridRule(techniques[i], spec, naming)
  }

  ghost predicate Traced(c: Candidate, techniques: seq<Technique>, spec: GridSpec, state: PuzzleState, naming: Naming)
    requires spec.puzzle.WellFormed()
  {
    exists i :: 0 <= i < |techniques| && FromTechnique(c, techniques[i], spec, state, naming)
  }

  lemma {:induction false} TracedLater(c: Candidate, techniques: seq<Technique>, spec: GridSpec, state: PuzzleState,
      naming: Naming)
    requires techniques != [] && spec.puzzle.WellFormed() && Traced(c, techniques[1..], spec, state, naming)
    ensures Traced(c, techniques, spec, state, naming)
  {
    var i :| 0 <= i < |techniques[1..]| && FromTechnique(c, techniques[1..][i], spec, state, naming);
    assert techniques[i + 1] == techniques[1..][i];
  }

  lemma {:induction false} TracedNamesDiffer(c: Candidate, d: Candidate, techniques: seq<Technique>, spec: GridSpec,
      state: PuzzleState, naming: Naming)
    requires
      && techniques != []
      && NoDuplicates(techniques)
      && spec.puzzle.WellFormed()
      && Distinguishes(naming, OfState(state))
    requires FromTechnique(c, techniques[0], spec, state, naming) && Traced(d, techniques[1..], spec, state, naming)
    ensures c.id != d.id
  {
    hide Deduced, Technique.Reference;
    var i :| 0 <= i < |techniques[1..]| && FromTechnique(d, techniques[1..][i], spec, state, naming);
    assert techniques[i + 1] == techniques[1..][i];
    var f :| Restates(c, techniques[0], f, spec, state, naming);
    var g :| Restates(d, techniques[i + 1], g, spec, state, naming);
  }

  lemma {:induction false} JoinUniqueIds(cs: seq<Candidate>, ds: seq<Candidate>)
    requires UniqueIds(cs) && UniqueIds(ds) && forall c, d :: c in cs && d in ds ==> c.id != d.id
    ensures UniqueIds(cs + ds)
  {
    var all := cs + ds;
    forall i, j | 0 <= i < j < |all| ensures all[i].id != all[j].id {
      if i < |cs| && j >= |cs| {
        assert all[i] in cs && all[j] in ds;
      }
    }
  }

  lemma {:induction false} GatheringSucceeds(rules: seq<Rule>, techniques: seq<Technique>, spec: GridSpec,
      state: PuzzleState, naming: Naming)
    requires Live(spec, state) && Distinguishes(naming, OfState(state)) && Registered(rules, techniques, spec, naming)
    ensures Gather(rules, spec.puzzle, state).Ok?
    ensures UniqueIds(Gather(rules, spec.puzzle, state).value)
    ensures forall c :: c in Gather(rules, spec.puzzle, state).value ==> Traced(c, techniques, spec, state, naming)
  {
    hide ValidCategories, ValidGivens, ValidConstraints, ValidAnchor, ValidState, PuzzleState.Structural, HasSolution,
      Checked, GridRule, FromTechnique, UniqueIds, Traced, Distinguishes;
    if rules != [] {
      RuleFinds(techniques[0], spec, state, naming);
      GatheringSucceeds(rules[1..], techniques[1..], spec, state, naming);
      var first, rest := Checked(rules[0], spec.puzzle, state).value, Gather(rules[1..], spec.puzzle, state).value;
      forall c, d | c in first && d in rest ensures c.id != d.id {
        TracedNamesDiffer(c, d, techniques, spec, state, naming);
      }
      JoinUniqueIds(first, rest);
      forall c | c in first + rest ensures Traced(c, techniques, spec, state, naming) {
        TracedHere(c, techniques, spec, state, naming, c in first);
      }
    } else {
      NothingUnique();
    }
  }

  lemma {:induction false} NothingUnique()
    ensures UniqueIds([])
  {
  }

  lemma {:induction false} TracedHere(c: Candidate, techniques: seq<Technique>, spec: GridSpec, state: PuzzleState,
      naming: Naming, here: bool)
    requires techniques != [] && spec.puzzle.WellFormed()
    requires here ==> FromTechnique(c, techniques[0], spec, state, naming)
    requires !here ==> Traced(c, techniques[1..], spec, state, naming)
    ensures Traced(c, techniques, spec, state, naming)
  {
    if !here {
      TracedLater(c, techniques, spec, state, naming);
    }
  }

  // ----- the registered rules in discovery order -----

  lemma {:induction false} PermutedDistinct<T>(s: seq<T>, t: seq<T>)
    requires NoDuplicates(s) && multiset(s) == multiset(t)
    ensures NoDuplicates(t)
  {
    forall i, j | 0 <= i < j < |t| ensures t[i] != t[j] {
      assert t == t[..i] + [t[i]] + t[i + 1..j] + [t[j]] + t[j + 1..];
      var x := t[i];
      assert x in multiset(t);
      DistinctCount(s, x);
      assert multiset(t)[x] >= if t[j] == x then 2 else 1;
    }
  }

  lemma {:induction false} DistinctCount<T>(s: seq<T>, x: T)
    requires NoDuplicates(s)
    ensures multiset(s)[x] <= 1
  {
    if s != [] {
      var n := |s| - 1;
      DistinctCount(s[..n], x);
      assert s == s[..n] + [s[n]];
      assert s[n] !in s[..n];
    }
  }

  /** The techniques of a permutation of the registered rules. */
  lemma {:induction false} PermutedRegistration(rules: seq<Rule>, techniques: seq<Technique>, permuted: seq<Rule>,
      spec: GridSpec, naming: Naming)
    returns (order: seq<Technique>)
    requires Shaped(spec) && Registered(rules, techniques, spec, naming) && multiset(permuted) == multiset(rules)
    ensures Registered(permuted, order, spec, naming)
  {
    hide Shaped, GridRule;
    forall i, j | 0 <= i < j < |rules| ensures rules[i] != rules[j] {
      ReferencesDiffer(techniques[i], techniques[j], spec, naming);
    }
    PermutedDistinct(rules, permuted);
    order := [];
    for k := 0 to |permuted|
      invariant |order| == k
      invariant forall i :: 0 <= i < k ==> permuted[i] == GridRule(order[i], spec, naming)
    {
      assert permuted[k] in multiset(permuted);
      assert permuted[k] in rules;
      var i :| 0 <= i < |rules| && rules[i] == permuted[k];
      order := order + [techniques[i]];
    }
    assert forall i, j :: 0 <= i < j < |order| ==> permuted[i] != permuted[j];
  }

  lemma {:induction false} ReferencesDiffer(t: Technique, u: Technique, spec: GridSpec, naming: Naming)
    requires Shaped(spec) && t != u
    ensures GridRule(t, spec, naming) != GridRule(u, spec, naming)
    ensures t.RuleId() != u.RuleId()
  {
    assert GridRule(t, spec, naming).reference.ruleId != GridRule(u, spec, naming).reference.ruleId;
  }

  lemma {:induction false} GridRulesRegistered(spec: GridSpec, naming: Naming)
    requires Shaped(spec)
    ensures Registered(GridRules(spec, naming), TECHNIQUES, spec, naming)
    ensures UniqueIdentities(GridRules(spec, naming))
  {
  }

  /** Discovery with the shipped rules never fails in a live state, names its candidates apart, and
      every candidate restates a deduced finding. */
  lemma {:induction false} DiscoverySucceeds(spec: GridSpec, state: PuzzleState, naming: Naming)
    requires Live(spec, state) && Distinguishes(naming, OfState(state))
    ensures Discover(spec.puzzle, state, GridRules(spec, naming)).Ok?
    ensures forall c :: c in Discover(spec.puzzle, state, GridRules(spec, naming)).value ==>
      exists t :: FromTechnique(c, t, spec, state, naming)
  {
    hide ValidCategories, ValidGivens, ValidConstraints, ValidAnchor, PuzzleState.Structural, HasSolution,
      GridRules, FromTechnique, UniqueIds, Distinguishes, Registered, UniqueIdentities, Gather, Sort;
    var rules := GridRules(spec, naming);
    GridRulesRegistered(spec, naming);
    SortKeeps(rules, RuleOrder());
    var ordered := Sort(rules, RuleOrder());
    var order := PermutedRegistration(rules, TECHNIQUES, ordered, spec, naming);
    GatheringSucceeds(ordered, order, spec, state, naming);
    SortKeeps(Gather(ordered, spec.puzzle, state).value, CanonicalOrder());
  }

  lemma {:induction false} CollectedContains<T>(items: seq<T>, f: T -> seq<Finding>, i: nat, g: Finding)
    requires i < |items| && g in f(items[i])
    ensures g in Collected(items, f)
  {
    var n := |items| - 1;
    if i < n {
      assert items[..n][i] == items[i];
      CollectedContains(items[..n], f, i, g);
    }
  }

  lemma {:induction false} GatheredContains(rules: seq<Rule>, puzzle: Puzzle, state: PuzzleState, rule: Rule,
      c: Candidate)
    requires Gather(rules, puzzle, state).Ok? && rule in rules
    ensures Checked(rule, puzzle, state).Ok?
    ensures c in Checked(rule, puzzle, state).value ==> c in Gather(rules, puzzle, state).value
  {
    hide Checked;
    if rules[0] != rule {
      GatheredContains(rules[1..], puzzle, state, rule, c);
    }
  }

  /** Discovery misses nothing: each finding of each shipped technique becomes a candidate. */
  lemma {:induction false} FindingsAreDiscovered(spec: GridSpec, state: PuzzleState, naming: Naming,
      technique: Technique,
      f: Finding)
    requires Live(spec, state) && Distinguishes(naming, OfState(state))
    requires Findings(technique, spec, state).Ok? && f in Findings(technique, spec, state).value
    ensures !f.conclusion.OtherAtom?
    ensures Discover(spec.puzzle, state, GridRules(spec, naming)).Ok?
    ensures CandidateFor(technique, state, naming, f) in Discover(spec.puzzle, state, GridRules(spec, naming)).value
  {
    hide ValidCategories, ValidGivens, ValidConstraints, ValidAnchor, PuzzleState.Structural, HasSolution, ValidState,
      FromTechnique, UniqueIds, Distinguishes, UniqueIdentities, Gather, Sort, Findings, CandidateFor, Checked;
    RulesAreSound(technique, spec, state);
    var k :| k in spec.puzzle.constraints && Deduced(f, k, spec, state);
    DiscoverySucceeds(spec, state, naming);
    var rules, rule := GridRules(spec, naming), GridRule(technique, spec, naming);
    SortKeeps(rules, RuleOrder());
    var ordered := Sort(rules, RuleOrder());
    assert rules[TechniqueIndex(technique)] == rule;
    assert rule in multiset(rules) && rule in multiset(ordered);
    var c := CandidateFor(technique, state, naming, f);
    GatheredContains(ordered, spec.puzzle, state, rule, c);
    FindingIsCandidate(spec, state, naming, technique, f);
    SortKeeps(Gather(ordered, spec.puzzle, state).value, CanonicalOrder());
  }

  lemma {:induction false} FindingIsCandidate(spec: GridSpec, state: PuzzleState, naming: Naming, technique: Technique,
      f: Finding)
    requires Live(spec, state) && Distinguishes(naming, OfState(state)) && !f.conclusion.OtherAtom?
    requires Findings(technique, spec, state).Ok? && f in Findings(technique, spec, state).value
    ensures Checked(GridRule(technique, spec, naming), spec.puzzle, state).Ok?
    ensures CandidateFor(technique, state, naming, f) in Checked(GridRule(technique, spec, naming), spec.puzzle, state).value
  {
    hide ValidCategories, ValidGivens, ValidConstraints, ValidAnchor, PuzzleState.Structural, HasSolution, ValidState,
      FromTechnique, UniqueIds, Distinguishes, Findings, CandidateFor;
    RuleFinds(technique, spec, state, naming);
    RulesAreSound(technique, spec, state);
    var fs := Findings(technique, spec, state).value;
    forall j | 0 <= j < |fs| ensures !fs[j].conclusion.OtherAtom? {
      assert fs[j] in fs;
    }
    var i :| 0 <= i < |fs| && fs[i] == f;
    assert CandidatesFor(technique, state, naming, fs)[i] == CandidateFor(technique, state, naming, f);
    assert Find(technique, spec, naming, state) == Ok(CandidatesFor(technique, state, naming, fs));
  }

  /** What the engine gets from one candidate: a valid proposal with duplicate-free premises, whose
      conclusion every solution of the state meets. */
  lemma {:induction false} CandidatesValidate(solver: Solver, spec: GridSpec, state: PuzzleState, naming: Naming,
      c: Candidate, t: Technique)
    requires Live(spec, state) && solver.puzzle == spec.puzzle && solver.rules == GridRules(spec, naming)
    requires FromTechnique(c, t, spec, state, naming)
    ensures Propose(solver, state, c).Ok?
    ensures var (proposal, conclusion) := Propose(solver, state, c).value;
      NoDuplicates(proposal.premises) && Entails(spec.puzzle, state, conclusion)
  {
    hide ValidCategories, ValidGivens, ValidConstraints, ValidAnchor, PuzzleState.Structural, HasSolution, Sort, Entails, FindRule,
      ValidateProposal, GridRules;
    var f :| Restates(c, t, f, spec, state, naming);
    EngineTheorems.FoundRuleMatches(solver.rules, c.rule);
    assert solver.rules[TechniqueIndex(t)] == GridRule(t, spec, naming);
    var rule := FindRule(solver.rules, c.rule).value;
    var i :| 0 <= i < |solver.rules| && solver.rules[i] == rule;
    if TECHNIQUES[i] != t {
      ReferencesDiffer(TECHNIQUES[i], t, spec, naming);
    }
    RestatementValidates(spec, state, naming, c, t, f);
  }

  function TechniqueIndex(t: Technique): (i: nat)
    ensures i < |TECHNIQUES| && TECHNIQUES[i] == t
  {
    match t
    case Association => 0
    case CategoryBijection => 1
    case Ordering => 2
    case NumericRelation => 3
    case CompoundLogic => 4
  }

  lemma {:induction false} RestatementValidates(spec: GridSpec, state: PuzzleState, naming: Naming, c: Candidate,
      t: Technique, f: Finding)
    requires spec.puzzle.WellFormed() && ValidState(state, spec.puzzle) && Restates(c, t, f, spec, state, naming)
    ensures ProposalFor(t, c, state).Ok?
    ensures var proposal := ProposalFor(t, c, state).value;
      && ValidateProposal(spec.puzzle, state, c, proposal) == Ok(f.conclusion)
      && NoDuplicates(proposal.premises) && Entails(spec.puzzle, state, f.conclusion)
  {
    hide Entails, Sort;
    SortKeeps(f.premises, PremiseOrder());
    PermutedDistinct(f.premises, Sort(f.premises, PremiseOrder()));
    var proposal := ProposalFor(t, c, state).value;
    forall p | p in proposal.premises ensures p in state.asserted {
      assert p in f.premises;
    }
  }
}

/** The genesis state of a compiled draft, and a clean draft that the shipped backends cannot prove together. */
module DraftGenesis {
  import opened Prelude
  import opened Domain
  import opened State
  import opened Solutions
  import opened LogicGrid
  import opened Templates
  import opened Drafts
  import opened DraftTheorems

  // ----- givens that assign different variables -----

  /** Each given assigns its own variable one of its candidates. */
  predicate Independent(givens: seq<Atom>, candidates: CandidateDomains) {
    && (forall i :: 0 <= i < |givens| ==>
          givens[i].AssignmentAtom? && givens[i].variable in candidates && givens[i].value in candidates[givens[i].variable])
    && forall i, j :: 0 <= i < j < |givens| ==> givens[i].variable != givens[j].variable
  }

  lemma {:induction false} IndependentGivensApply(candidates: CandidateDomains, givens: seq<Atom>)
    requires Independent(givens, candidates)
    ensures ApplyGivens(candidates, givens).Ok?
    ensures var next := ApplyGivens(candidates, givens).value;
      && next.Keys == candidates.Keys
      && (forall i :: 0 <= i < |givens| ==> next[givens[i].variable] == {givens[i].value})
      && (forall v :: v in candidates && (forall i :: 0 <= i < |givens| ==> givens[i].variable != v) ==> next[v] == candidates[v])
  {
    if givens != [] {
      var g := givens[0];
      var first := candidates[g.variable := {g.value}];
      forall i | 0 <= i < |givens| - 1
        ensures givens[1..][i].variable in first && givens[1..][i].value in first[givens[1..][i].variable]
      {
        assert givens[1..][i] == givens[i + 1];
      }
      IndependentGivensApply(first, givens[1..]);
      var next := ApplyGivens(first, givens[1..]).value;
      assert next[g.variable] == {g.value};
      forall i | 0 <= i < |givens| ensures next[givens[i].variable] == {givens[i].value} {
        if i > 0 {
          assert givens[i] == givens[1..][i - 1];
        }
      }
      forall v | v in candidates && (forall i :: 0 <= i < |givens| ==> givens[i].variable != v) ensures next[v] == candidates[v] {
        assert g.variable != v;
        forall i | 0 <= i < |givens| - 1 ensures givens[1..][i].variable != v {
          assert givens[1..][i] == givens[i + 1];
        }
      }
    }
  }

  lemma {:induction false} NothingNarrows(candidates: CandidateDomains, cs: seq<Constraint>)
    requires forall i :: 0 <= i < |cs| ==> !cs[i].DomainConstraint?
    ensures NarrowAll(candidates, cs) == Ok(candidates)
  {
    if cs != [] {
      NothingNarrows(candidates, cs[1..]);
    }
  }

  // ----- genesis -----

  /** The variable of item `j` of category `i`. */
  function VariableOf(draft: Draft, encode: Encoding, i: nat, j: nat): VariableId
    requires i < |draft.categories| && j < |draft.categories[i].items|
  {
    RowVariables(draft, encode, draft.categories[i])[j]
  }

  /** The candidates a compiled draft starts with: anchor items on their own rows, all rows for the others. */
  ghost predicate Opens(draft: Draft, encode: Encoding, rows: seq<DomainValue>, candidates: CandidateDomains)
    requires Clean(draft)
  {
    && candidates.Keys == VariablesOf(draft, encode).Values
    && forall i, j :: 0 <= i < |draft.categories| && 0 <= j < |draft.categories[i].items| ==>
         OpensAt(draft, encode, rows, candidates, i, j)
  }

  ghost predicate OpensAt(draft: Draft, encode: Encoding, rows: seq<DomainValue>, candidates: CandidateDomains,
      i: nat, j: nat)
    requires Clean(draft) && i < |draft.categories| && j < |draft.categories[i].items|
  {
    var v := VariableOf(draft, encode, i, j);
    && j < |rows| && v in candidates
    && candidates[v] == if i == AnchorIndex(draft) then {rows[j].id} else Elements(ValueIds(rows))
  }

  lemma {:induction false} ItemCount(draft: Draft, i: nat)
    requires Clean(draft) && i < |draft.categories|
    ensures |draft.categories[i].items| == |draft.categories[AnchorIndex(draft)].items| >= 2
  {
    hide CleanCategory, CleanClue;
    CleanParts(draft, i);
    CleanParts(draft, AnchorIndex(draft));
    CategoryHasItems(draft.categories[i], |draft.categories[0].items|);
    CategoryHasItems(draft.categories[AnchorIndex(draft)], |draft.categories[0].items|);
  }

  lemma {:induction false} ShapedIsWellFormed(spec: GridSpec)
    requires Shaped(spec)
    ensures spec.puzzle.WellFormed()
  {
  }

  lemma {:induction false} GivensAreIndependent(draft: Draft, encode: Encoding)
    requires Clean(draft) && Injective(encode) && Shaped(CompileDraft(draft, encode))
    requires Anchor(CompileDraft(draft, encode)) == ValuesOf(draft, encode, draft.categories[AnchorIndex(draft)], true)
    ensures var puzzle := CompileDraft(draft, encode).puzzle;
      Independent(puzzle.givens, DeclaredDomains(puzzle))
  {
    hide CleanCategory, CleanClue, DomainsOf, VariableText, ValueText, CluesOf, BijectionsOf, VariablesOf, RowVariables, Anchor, Shaped,
      Puzzle.WellFormed;
    var spec, k := CompileDraft(draft, encode), AnchorIndex(draft);
    var gs := spec.puzzle.givens;
    ShapedIsWellFormed(spec);
    GivenShape(draft, encode);
    forall j | 0 <= j < |gs|
      ensures
        && gs[j].variable in DeclaredDomains(spec.puzzle)
        && gs[j].value in DeclaredDomains(spec.puzzle)[gs[j].variable]
    {
      VariableAt(draft, encode, k, j);
      GridIds(spec, gs[j].variable);
      assert ValueIds(Anchor(spec))[j] == Anchor(spec)[j].id;
    }
    forall i, j | 0 <= i < j < |gs| ensures gs[i].variable != gs[j].variable {
      if gs[i].variable == gs[j].variable {
        VariablesDiffer(draft, encode, k, i, k, j);
      }
    }
  }

  lemma {:induction false} GivenShape(draft: Draft, encode: Encoding)
    requires Clean(draft)
    ensures var k := AnchorIndex(draft);
      var gs := CompileDraft(draft, encode).puzzle.givens;
      var rows := ValuesOf(draft, encode, draft.categories[k], true);
      && CompileDraft(draft, encode).puzzle.variables.Keys == VariablesOf(draft, encode).Values
      && |gs| == |rows| == |draft.categories[k].items|
      && forall j :: 0 <= j < |gs| ==> gs[j] == AssignmentAtom(RowVariables(draft, encode, draft.categories[k])[j], rows[j].id)
  {
    hide VariableText, ValueText, DomainsOf, CluesOf, BijectionsOf, CleanCategory, CleanClue, VariablesOf;
  }

  lemma {:induction false} CandidatesOpen(draft: Draft, encode: Encoding)
    requires Clean(draft) && Injective(encode) && Shaped(CompileDraft(draft, encode))
    requires Anchor(CompileDraft(draft, encode)) == ValuesOf(draft, encode, draft.categories[AnchorIndex(draft)], true)
    ensures var spec := CompileDraft(draft, encode);
      var applied := ApplyGivens(DeclaredDomains(spec.puzzle), spec.puzzle.givens);
      applied.Ok? && Opens(draft, encode, Anchor(spec), applied.value)
  {
    hide CleanCategory, CleanClue, CompileDraft, VariablesOf, RowVariables, Anchor, Shaped, ApplyGivens, ValuesOf, Puzzle.WellFormed,
      Independent;
    var spec, k := CompileDraft(draft, encode), AnchorIndex(draft);
    var gs := spec.puzzle.givens;
    ShapedIsWellFormed(spec);
    GivenShape(draft, encode);
    GivensAreIndependent(draft, encode);
    IndependentGivensApply(DeclaredDomains(spec.puzzle), gs);
    var candidates := ApplyGivens(DeclaredDomains(spec.puzzle), gs).value;
    forall i, j | 0 <= i < |draft.categories| && 0 <= j < |draft.categories[i].items|
      ensures OpensAt(draft, encode, Anchor(spec), candidates, i, j)
    {
      var v := VariableOf(draft, encode, i, j);
      ItemCount(draft, i);
      VariableAt(draft, encode, i, j);
      GridIds(spec, v);
      if i == k {
        assert gs[j].variable == v;
      } else {
        forall l | 0 <= l < |gs| ensures gs[l].variable != v {
          if gs[l].variable == v {
            VariablesDiffer(draft, encode, k, l, i, j);
          }
        }
      }
    }
  }

  /** The state the genesis is built from. */
  function Opening(puzzle: Puzzle, stateId: Identifier, branch: Identifier, n: nat,
      candidates: CandidateDomains): PuzzleState {
    PuzzleState(stateId, puzzle.revision, n, branch, candidates, Elements(puzzle.givens) + SingletonAtoms(candidates), {},
                set c | c in puzzle.constraints :: c.id, [])
  }

  lemma {:induction false} CandidateSizes(draft: Draft, encode: Encoding, rows: seq<DomainValue>,
      candidates: CandidateDomains, v: VariableId) returns (i: nat, j: nat)
    requires Clean(draft) && Opens(draft, encode, rows, candidates) && v in candidates
    requires NoDuplicates(ValueIds(rows)) && |rows| == |draft.categories[AnchorIndex(draft)].items|
    ensures i < |draft.categories| && j < |draft.categories[i].items| && v == VariableOf(draft, encode, i, j)
    ensures j < |rows|
    ensures i == AnchorIndex(draft) ==> candidates[v] == {rows[j].id}
    ensures i != AnchorIndex(draft) ==> candidates[v] == Elements(ValueIds(rows)) && |candidates[v]| == |rows| >= 2
  {
    hide Clean, VariablesOf, RowVariables;
    i, j := VariablesComeFrom(draft, encode, v);
    ItemCount(draft, AnchorIndex(draft));
    assert OpensAt(draft, encode, rows, candidates, i, j);
    DistinctSize(ValueIds(rows));
  }

  /** The asserted assignments at genesis are exactly the givens. */
  lemma {:induction false} OnlyAnchorIsSettled(draft: Draft, encode: Encoding, candidates: CandidateDomains,
      v: VariableId,
      x: ValueId) returns (j: nat)
    requires Clean(draft) && Injective(encode) && Shaped(CompileDraft(draft, encode))
    requires Anchor(CompileDraft(draft, encode)) == ValuesOf(draft, encode, draft.categories[AnchorIndex(draft)], true)
    requires Opens(draft, encode, Anchor(CompileDraft(draft, encode)), candidates)
    requires AssignmentAtom(v, x) in Elements(CompileDraft(draft, encode).puzzle.givens) + SingletonAtoms(candidates)
    ensures var k := AnchorIndex(draft);
      && j < |draft.categories[k].items| && v == VariableOf(draft, encode, k, j)
      && j < |Anchor(CompileDraft(draft, encode))| && x == Anchor(CompileDraft(draft, encode))[j].id
      && v in candidates && candidates[v] == {x}
  {
    hide CleanCategory, CleanClue, CompileDraft, VariablesOf, RowVariables, Anchor, Shaped, ValuesOf;
    var spec, k := CompileDraft(draft, encode), AnchorIndex(draft);
    var gs := spec.puzzle.givens;
    GivenShape(draft, encode);
    CompiledAnchor(draft, encode);
    if AssignmentAtom(v, x) in gs {
      j :| 0 <= j < |gs| && gs[j] == AssignmentAtom(v, x);
      assert OpensAt(draft, encode, Anchor(spec), candidates, k, j);
    } else {
      var i: nat;
      i, j := CandidateSizes(draft, encode, Anchor(spec), candidates, v);
    }
  }

  /** The genesis of a compiled draft always exists, with these candidates. */
  lemma {:induction false} DraftGenesisExists(draft: Draft, encode: Encoding, stateId: Identifier, branch: Identifier,
      n: nat)
    requires Clean(draft) && Injective(encode)
    ensures Shaped(CompileDraft(draft, encode)) && CompileDraft(draft, encode).puzzle.WellFormed()
    ensures var spec := CompileDraft(draft, encode);
      var genesis := InitialState(spec.puzzle, stateId, branch, n);
      && genesis.Ok? && Opens(draft, encode, Anchor(spec), genesis.value.candidates)
      && genesis.value.active == (set c | c in spec.puzzle.constraints :: c.id)
  {
    hide Clean, CompileDraft, Anchor, Opens, Shaped, ApplyGivens, NarrowAll, DeclaredDomains, ValidState, PuzzleState.Structural,
      Puzzle.WellFormed, ValuesOf;
    var spec := CompileDraft(draft, encode);
    CompiledShape(draft, encode);
    ShapedIsWellFormed(spec);
    NoDomainConstraints(draft, encode);
    NothingNarrows(DeclaredDomains(spec.puzzle), spec.puzzle.constraints);
    CandidatesOpen(draft, encode);
    var candidates := ApplyGivens(DeclaredDomains(spec.puzzle), spec.puzzle.givens).value;
    OpeningIsStructural(draft, encode, stateId, branch, n, candidates);
    OpeningIsValid(draft, encode, stateId, branch, n, candidates);
  }

  lemma {:induction false} NoDomainConstraints(draft: Draft, encode: Encoding)
    requires Clean(draft)
    ensures var cs := CompileDraft(draft, encode).puzzle.constraints;
      forall i :: 0 <= i < |cs| ==> !cs[i].DomainConstraint?
  {
    hide Clean, DomainsOf, GivensOf, VariablesOf, Compile, RowVariables;
  }

  lemma {:induction false} OpeningIsStructural(draft: Draft, encode: Encoding, stateId: Identifier, branch: Identifier,
      n: nat, candidates: CandidateDomains)
    requires Clean(draft) && Injective(encode) && Shaped(CompileDraft(draft, encode))
    requires Anchor(CompileDraft(draft, encode)) == ValuesOf(draft, encode, draft.categories[AnchorIndex(draft)], true)
    requires Opens(draft, encode, Anchor(CompileDraft(draft, encode)), candidates)
    ensures Opening(CompileDraft(draft, encode).puzzle, stateId, branch, n, candidates).Structural()
  {
    hide Clean, CompileDraft, Anchor, Shaped, ValuesOf, VariablesOf, RowVariables;
    var spec := CompileDraft(draft, encode);
    CompiledAnchor(draft, encode);
    GivenShape(draft, encode);
    forall v | v in candidates ensures candidates[v] != {} {
      var i, j := CandidateSizes(draft, encode, Anchor(spec), candidates, v);
    }
    ItemCount(draft, AnchorIndex(draft));
    VariableAt(draft, encode, AnchorIndex(draft), 0);
    assert OpensAt(draft, encode, Anchor(spec), candidates, AnchorIndex(draft), 0);
  }

  lemma {:induction false} OpeningIsValid(draft: Draft, encode: Encoding, stateId: Identifier, branch: Identifier,
      n: nat, candidates: CandidateDomains)
    requires Clean(draft) && Injective(encode) && Shaped(CompileDraft(draft, encode))
    requires CompileDraft(draft, encode).puzzle.WellFormed()
    requires Anchor(CompileDraft(draft, encode)) == ValuesOf(draft, encode, draft.categories[AnchorIndex(draft)], true)
    requires Opens(draft, encode, Anchor(CompileDraft(draft, encode)), candidates)
    ensures ValidState(Opening(CompileDraft(draft, encode).puzzle, stateId, branch, n, candidates), CompileDraft(draft, encode).puzzle)
  {
    hide Clean, CompileDraft, Anchor, Shaped, ValuesOf, VariablesOf, RowVariables, SingletonAtoms;
    var spec := CompileDraft(draft, encode);
    var rows, puzzle := Anchor(spec), spec.puzzle;
    var state := Opening(puzzle, stateId, branch, n, candidates);
    CompiledAnchor(draft, encode);
    GivenShape(draft, encode);
    forall v | v in candidates ensures candidates[v] <= FullDomain(puzzle, v) {
      var i, j := CandidateSizes(draft, encode, rows, candidates, v);
      GridIds(spec, v);
      assert ValueIds(rows)[j] == rows[j].id;
    }
    forall atom | atom in state.asserted ensures AtomAgrees(atom, state, puzzle) {
      OpeningAsserts(puzzle, stateId, branch, n, candidates, atom, draft, encode);
      var j := OnlyAnchorIsSettled(draft, encode, candidates, atom.variable, atom.value);
      GridIds(spec, atom.variable);
    }
    ListsStayApart(draft, encode, stateId, branch, n, candidates);
  }

  lemma {:induction false} OpeningAsserts(puzzle: Puzzle, stateId: Identifier, branch: Identifier, n: nat,
      candidates: CandidateDomains, atom: Atom, draft: Draft, encode: Encoding)
    requires Clean(draft) && puzzle == CompileDraft(draft, encode).puzzle
    requires atom in Opening(puzzle, stateId, branch, n, candidates).asserted
    ensures atom.AssignmentAtom?
  {
    hide Clean, CompileDraft, RowVariables, ValuesOf;
    GivenShape(draft, encode);
  }

  lemma {:induction false} ListsStayApart(draft: Draft, encode: Encoding, stateId: Identifier, branch: Identifier,
      n: nat,
      candidates: CandidateDomains)
    requires Clean(draft) && Injective(encode) && Shaped(CompileDraft(draft, encode))
    requires Anchor(CompileDraft(draft, encode)) == ValuesOf(draft, encode, draft.categories[AnchorIndex(draft)], true)
    requires Opens(draft, encode, Anchor(CompileDraft(draft, encode)), candidates)
    ensures ListsDiffer(CompileDraft(draft, encode).puzzle.constraints,
                        Opening(CompileDraft(draft, encode).puzzle, stateId, branch, n, candidates).asserted)
  {
    hide Clean, CompileDraft, Anchor, Shaped, ValuesOf, VariablesOf, RowVariables, SingletonAtoms;
    var spec := CompileDraft(draft, encode);
    var cs, asserted := spec.puzzle.constraints, Opening(spec.puzzle, stateId, branch, n, candidates).asserted;
    CompiledAnchor(draft, encode);
    forall m | 0 <= m < |cs| && cs[m].AllDifferentConstraint? ensures AssignedDifferently(cs[m].variables, asserted) {
      var vs := cs[m].variables;
      ListIsRow(draft, encode, m);
      forall i, j, x | 0 <= i < j < |vs| && x in AssertedValues(vs[i], asserted) ensures x !in AssertedValues(vs[j], asserted) {
        if x in AssertedValues(vs[j], asserted) {
          var a := OnlyAnchorIsSettled(draft, encode, candidates, vs[i], x);
          var b := OnlyAnchorIsSettled(draft, encode, candidates, vs[j], x);
          SameIdSameRow(Anchor(spec), a, b);
          VariablesDiffer(draft, encode, m, i, AnchorIndex(draft), a);
          VariablesDiffer(draft, encode, m, j, AnchorIndex(draft), b);
          assert false;
        }
      }
    }
  }

  lemma {:induction false} SameIdSameRow(rows: seq<DomainValue>, a: nat, b: nat)
    requires NoDuplicates(ValueIds(rows)) && a < |rows| && b < |rows| && rows[a].id == rows[b].id
    ensures a == b
  {
    assert ValueIds(rows)[a] == rows[a].id && ValueIds(rows)[b] == rows[b].id;
  }

  lemma {:induction false} ListIsRow(draft: Draft, encode: Encoding, m: nat)
    requires Clean(draft) && m < |CompileDraft(draft, encode).puzzle.constraints|
    requires CompileDraft(draft, encode).puzzle.constraints[m].AllDifferentConstraint?
    ensures m < |draft.categories|
    ensures CompileDraft(draft, encode).puzzle.constraints[m].variables == RowVariables(draft, encode, draft.categories[m])
  {
    hide Clean, DomainsOf, GivensOf, VariablesOf, Compile, RowVariables;
  }

  // ----- the straight placement -----

  /** Item `j` of every category on row `j`. */
  ghost predicate Straight(draft: Draft, place: Placement) {
    forall i, j :: 0 <= i < |draft.categories| && 0 <= j < |draft.categories[i].items| ==>
      RefAt(draft.categories, i, j) in place && place[RefAt(draft.categories, i, j)] == j
  }

  /** Every clue says something true of the straight placement. */
  ghost predicate StraightIsMeant(draft: Draft, numbers: seq<Option<Number>>) {
    forall k, place: Placement :: 0 <= k < |draft.clues| && Straight(draft, place) && Refs(draft.clues[k].template) <= place.Keys ==>
      Means(draft.clues[k].template, place, numbers)
  }

  ghost predicate StraightAssignment(draft: Draft, encode: Encoding, rows: seq<DomainValue>, a: Assignment)
    requires Clean(draft)
  {
    && a.Keys == VariablesOf(draft, encode).Values
    && forall i, j :: 0 <= i < |draft.categories| && 0 <= j < |draft.categories[i].items| ==>
         StraightAt(draft, encode, rows, a, i, j)
  }

  ghost predicate StraightAt(draft: Draft, encode: Encoding, rows: seq<DomainValue>, a: Assignment, i: nat, j: nat)
    requires i < |draft.categories| && j < |draft.categories[i].items|
  {
    var v := VariableOf(draft, encode, i, j);
    j < |rows| && v in a && a[v] == rows[j].id
  }

  ghost predicate StandsAt(draft: Draft, encode: Encoding, v: VariableId, i: nat, j: nat) {
    i < |draft.categories| && j < |draft.categories[i].items| && v == VariableOf(draft, encode, i, j)
  }

  /** The position of a variable's item in its category. */
  ghost function PositionOf(draft: Draft, encode: Encoding, v: VariableId): (r: nat)
    requires exists i: nat, j: nat :: StandsAt(draft, encode, v, i, j)
    ensures exists i: nat :: StandsAt(draft, encode, v, i, r)
  {
    var i: nat, j: nat :| StandsAt(draft, encode, v, i, j);
    j
  }

  lemma {:induction false} PositionStands(draft: Draft, encode: Encoding, v: VariableId) returns (i: nat)
    requires exists i: nat, j: nat :: StandsAt(draft, encode, v, i, j)
    ensures i < |draft.categories| && PositionOf(draft, encode, v) < |draft.categories[i].items|
    ensures v == VariableOf(draft, encode, i, PositionOf(draft, encode, v))
  {
    var r := PositionOf(draft, encode, v);
    i :| StandsAt(draft, encode, v, i, r);
  }

  lemma {:induction false} PositionIsUnique(draft: Draft, encode: Encoding, i: nat, j: nat)
    requires Clean(draft) && Injective(encode) && i < |draft.categories| && j < |draft.categories[i].items|
    ensures StandsAt(draft, encode, VariableOf(draft, encode, i, j), i, j)
    ensures PositionOf(draft, encode, VariableOf(draft, encode, i, j)) == j
  {
    hide Clean, RowVariables;
    var v := VariableOf(draft, encode, i, j);
    assert StandsAt(draft, encode, v, i, j);
    var k := PositionStands(draft, encode, v);
    VariablesDiffer(draft, encode, i, j, k, PositionOf(draft, encode, v));
  }

  lemma {:induction false} PositionIsRow(draft: Draft, encode: Encoding, v: VariableId)
    requires Clean(draft) && v in VariablesOf(draft, encode).Values
    ensures exists i: nat, j: nat :: StandsAt(draft, encode, v, i, j)
    ensures PositionOf(draft, encode, v) < |draft.categories[AnchorIndex(draft)].items|
  {
    hide Clean, VariablesOf, RowVariables;
    var i, j := VariablesComeFrom(draft, encode, v);
    assert StandsAt(draft, encode, v, i, j);
    var k := PositionStands(draft, encode, v);
    ItemCount(draft, k);
  }

  lemma {:induction false} StraightExists(draft: Draft, encode: Encoding,
      rows: seq<DomainValue>) returns (a: Assignment)
    requires Clean(draft) && Injective(encode) && |rows| == |draft.categories[AnchorIndex(draft)].items|
    ensures StraightAssignment(draft, encode, rows, a)
  {
    hide Clean, VariablesOf, RowVariables, StandsAt, PositionOf;
    var vs := VariablesOf(draft, encode).Values;
    forall v | v in vs
      ensures (exists i: nat, j: nat :: StandsAt(draft, encode, v, i, j)) && PositionOf(draft, encode, v) < |rows|
    {
      PositionIsRow(draft, encode, v);
    }
    a := map v | v in vs :: rows[PositionOf(draft, encode, v)].id;
    assert a.Keys == vs;
    forall i, j | 0 <= i < |draft.categories| && 0 <= j < |draft.categories[i].items|
      ensures StraightAt(draft, encode, rows, a, i, j)
    {
      ItemCount(draft, i);
      VariableAt(draft, encode, i, j);
      PositionIsUnique(draft, encode, i, j);
      assert VariableOf(draft, encode, i, j) in vs;
    }
  }

  lemma {:induction false} StraightIsDrawn(draft: Draft, encode: Encoding, candidates: CandidateDomains, a: Assignment)
    requires Clean(draft) && Injective(encode) && Shaped(CompileDraft(draft, encode))
    requires Anchor(CompileDraft(draft, encode)) == ValuesOf(draft, encode, draft.categories[AnchorIndex(draft)], true)
    requires Opens(draft, encode, Anchor(CompileDraft(draft, encode)), candidates)
    requires StraightAssignment(draft, encode, Anchor(CompileDraft(draft, encode)), a)
    requires CompileDraft(draft, encode).puzzle.WellFormed()
    ensures Complete(CompileDraft(draft, encode).puzzle, a)
    ensures forall v :: v in a ==> v in candidates && a[v] in candidates[v]
  {
    hide Clean, CompileDraft, Anchor, Shaped, ValuesOf, VariablesOf, RowVariables;
    var spec := CompileDraft(draft, encode);
    var rows := Anchor(spec);
    CompiledAnchor(draft, encode);
    GivenShape(draft, encode);
    forall v | v in a ensures v in candidates && a[v] in candidates[v] && a[v] in Ids(spec.puzzle, v) {
      var i, j := CandidateSizes(draft, encode, rows, candidates, v);
      assert StraightAt(draft, encode, rows, a, i, j);
      GridIds(spec, v);
      assert ValueIds(rows)[j] == rows[j].id;
    }
  }

  lemma {:induction false} StraightRowsDiffer(draft: Draft, encode: Encoding, a: Assignment, m: nat)
    requires Clean(draft) && Injective(encode) && Shaped(CompileDraft(draft, encode)) && m < |draft.categories|
    requires Anchor(CompileDraft(draft, encode)) == ValuesOf(draft, encode, draft.categories[AnchorIndex(draft)], true)
    requires StraightAssignment(draft, encode, Anchor(CompileDraft(draft, encode)), a)
    requires CompileDraft(draft, encode).puzzle.WellFormed() && Complete(CompileDraft(draft, encode).puzzle, a)
    ensures CodesDiffer(RowVariables(draft, encode, draft.categories[m]), CodesOf(CompileDraft(draft, encode).puzzle, a))
  {
    hide Clean, CompileDraft, Anchor, Shaped, ValuesOf, VariablesOf;
    var spec := CompileDraft(draft, encode);
    var rows, vs, codes := Anchor(spec), RowVariables(draft, encode, draft.categories[m]), CodesOf(spec.puzzle, a);
    GivenShape(draft, encode);
    forall j | 0 <= j < |vs| ensures vs[j] in codes && codes[vs[j]] == j {
      assert StraightAt(draft, encode, rows, a, m, j);
      GridIds(spec, vs[j]);
      IndexIsUnique(ValueIds(rows), j);
    }
  }

  lemma {:induction false} ShownAt(draft: Draft, encode: Encoding, rows: seq<DomainValue>, a: Assignment,
      place: Placement, i: nat, j: nat)
    requires
      && Clean(draft)
      && Injective(encode)
      && NoDuplicates(ValueIds(rows))
      && StraightAssignment(draft, encode, rows, a)
    requires Shows(VariablesOf(draft, encode), place, rows, a)
    requires i < |draft.categories| && j < |draft.categories[i].items|
    ensures RefAt(draft.categories, i, j) in place && place[RefAt(draft.categories, i, j)] == j
  {
    hide Clean, VariablesOf, RowVariables;
    VariableAt(draft, encode, i, j);
    assert StraightAt(draft, encode, rows, a, i, j);
    assert VariablesOf(draft, encode)[RefAt(draft.categories, i, j)] == VariableOf(draft, encode, i, j);
    SameIdSameRow(rows, place[RefAt(draft.categories, i, j)], j);
  }

  lemma {:induction false} ShownStraight(draft: Draft, encode: Encoding, rows: seq<DomainValue>, a: Assignment,
      place: Placement)
    requires
      && Clean(draft)
      && Injective(encode)
      && NoDuplicates(ValueIds(rows))
      && StraightAssignment(draft, encode, rows, a)
    requires Shows(VariablesOf(draft, encode), place, rows, a)
    ensures Straight(draft, place)
  {
    hide Clean, VariablesOf, RowVariables, Shows, StraightAssignment;
    forall i, j | 0 <= i < |draft.categories| && 0 <= j < |draft.categories[i].items|
      ensures RefAt(draft.categories, i, j) in place && place[RefAt(draft.categories, i, j)] == j
    {
      ShownAt(draft, encode, rows, a, place, i, j);
    }
  }

  /** A clean draft whose clues are all true of the straight placement has a solvable genesis. */
  lemma {:induction false} StraightSolves(draft: Draft, encode: Encoding, stateId: Identifier, branch: Identifier,
      n: nat)
    requires Clean(draft) && Injective(encode) && CompileDraft(draft, encode).puzzle.WellFormed()
    requires InitialState(CompileDraft(draft, encode).puzzle, stateId, branch, n).Ok?
    requires
      && Shaped(CompileDraft(draft, encode))
      && StraightIsMeant(draft, NumericOf(Anchor(CompileDraft(draft, encode))))
    ensures HasSolution(CompileDraft(draft, encode).puzzle, InitialState(CompileDraft(draft, encode).puzzle, stateId, branch, n).value)
  {
    hide Clean, CompileDraft, Anchor, Opens, Shaped, ValuesOf, InitialState, StraightAssignment, ConstraintHolds, Means,
      VariablesOf, RowVariables, CodesDiffer, Valid;
    var spec := CompileDraft(draft, encode);
    var genesis := InitialState(spec.puzzle, stateId, branch, n).value;
    DraftGenesisExists(draft, encode, stateId, branch, n);
    CompiledShape(draft, encode);
    CompiledIsValid(draft, encode);
    GivenShape(draft, encode);
    var a := StraightExists(draft, encode, Anchor(spec));
    StraightIsDrawn(draft, encode, genesis.candidates, a);
    forall c | c in spec.puzzle.constraints ensures ConstraintHolds(spec.puzzle, c, a) {
      var m :| 0 <= m < |spec.puzzle.constraints| && spec.puzzle.constraints[m] == c;
      StraightHolds(draft, encode, a, m);
    }
    assert Solution(spec.puzzle, genesis, a);
  }

  lemma {:induction false} StraightHolds(draft: Draft, encode: Encoding, a: Assignment, m: nat)
    requires
      && Clean(draft)
      && Injective(encode)
      && Shaped(CompileDraft(draft, encode))
      && Valid(CompileDraft(draft, encode))
    requires Anchor(CompileDraft(draft, encode)) == ValuesOf(draft, encode, draft.categories[AnchorIndex(draft)], true)
    requires CompileDraft(draft, encode).puzzle.WellFormed() && Complete(CompileDraft(draft, encode).puzzle, a)
    requires StraightAssignment(draft, encode, Anchor(CompileDraft(draft, encode)), a)
    requires StraightIsMeant(draft, NumericOf(Anchor(CompileDraft(draft, encode))))
    requires m < |CompileDraft(draft, encode).puzzle.constraints|
    ensures ConstraintHolds(CompileDraft(draft, encode).puzzle, CompileDraft(draft, encode).puzzle.constraints[m], a)
  {
    hide Clean, CompileDraft, Anchor, Shaped, ValuesOf, StraightAssignment, Means, VariablesOf, RowVariables, CodesDiffer, Valid,
      Shows, Straight, ClueHolds;
    var spec := CompileDraft(draft, encode);
    ConstraintAt(draft, encode, m);
    if m < |draft.categories| {
      StraightRowsDiffer(draft, encode, a, m);
    } else {
      var k := m - |draft.categories|;
      var place := CompiledClueMeans(draft, encode, k, a);
      CompiledAnchor(draft, encode);
      ShownStraight(draft, encode, Anchor(spec), a, place);
    }
  }

  lemma {:induction false} ConstraintAt(draft: Draft, encode: Encoding, m: nat)
    requires Clean(draft) && m < |CompileDraft(draft, encode).puzzle.constraints|
    ensures var c := CompileDraft(draft, encode).puzzle.constraints[m];
      if m < |draft.categories|
      then c.AllDifferentConstraint? && c.variables == RowVariables(draft, encode, draft.categories[m])
      else m - |draft.categories| < |draft.clues| && c == CluesOf(draft, encode)[m - |draft.categories|]
  {
    hide Clean, DomainsOf, GivensOf, VariablesOf, Compile, RowVariables;
  }
}

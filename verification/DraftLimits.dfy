/** Which clean drafts the shipped backends can prove anything about. */
module DraftLimits {
  import opened Prelude
  import opened Domain
  import opened State
  import opened Solutions
  import opened LogicGrid
  import L = LogicGridTables
  import opened Templates
  import opened Drafts
  import opened DraftTheorems
  import opened DraftGenesis
  import T = CpSat

  // ----- the variables of a compiled clue -----

  function Image(refs: set<ItemRef>, variables: map<ItemRef, VariableId>): set<VariableId>
    requires refs <= variables.Keys
  {
    set ref | ref in refs :: variables[ref]
  }

  lemma {:induction false} PairVariables(t: Template, variables: map<ItemRef, VariableId>)
    requires (t.Association? || t.Ordering?) && Refs(t) <= variables.Keys
    ensures BooleanVariables(Compile(t, variables)) == Image(Refs(t), variables)
  {
  }

  lemma {:induction false} DifferenceVariables(t: Template, variables: map<ItemRef, VariableId>)
    requires t.NumericDifference? && Refs(t) <= variables.Keys
    ensures BooleanVariables(Compile(t, variables)) == Image(Refs(t), variables)
  {
    var greater, lesser := Reference(t.greater, variables), Reference(t.lesser, variables);
    assert NumericVariables(Subtract(greater, lesser)) == NumericVariables(greater) + NumericVariables(lesser);
  }

  lemma {:induction false} ImageJoins(refs: set<ItemRef>, others: set<ItemRef>, variables: map<ItemRef, VariableId>)
    requires refs + others <= variables.Keys
    ensures Image(refs + others, variables) == Image(refs, variables) + Image(others, variables)
  {
  }

  lemma {:induction false} CompiledVariables(t: Template, variables: map<ItemRef, VariableId>)
    requires Refs(t) <= variables.Keys
    ensures BooleanVariables(Compile(t, variables)) == Image(Refs(t), variables)
    decreases t, 0
  {
    hide Image;
    match t
    case Association(_, _, _) => PairVariables(t, variables);
    case Ordering(_, _) => PairVariables(t, variables);
    case NumericDifference(_, _, _) => DifferenceVariables(t, variables);
    case AllOf(operands) => AllCompiledVariables(operands, variables);
    case AnyOneOf(operands) => AllCompiledVariables(operands, variables);
    case Between(operands, _, _) => AllCompiledVariables(operands, variables);
    case Negation(operand) => CompiledVariables(operand, variables);
    case Exclusive(first, second) =>
      CompiledVariables(first, variables);
      CompiledVariables(second, variables);
      ImageJoins(Refs(first), Refs(second), variables);
    case Conditional(first, second) =>
      CompiledVariables(first, variables);
      CompiledVariables(second, variables);
      ImageJoins(Refs(first), Refs(second), variables);
    case Equivalence(first, second) =>
      CompiledVariables(first, variables);
      CompiledVariables(second, variables);
      ImageJoins(Refs(first), Refs(second), variables);
  }

  lemma {:induction false} AllCompiledVariables(ts: seq<Template>, variables: map<ItemRef, VariableId>)
    requires RefsOfAll(ts) <= variables.Keys
    ensures BooleanVariablesOfAll(CompileAll(ts, variables)) == Image(RefsOfAll(ts), variables)
    decreases ts, 1
  {
    if ts != [] {
      CompiledVariables(ts[0], variables);
      AllCompiledVariables(ts[1..], variables);
    }
  }

  lemma {:induction false} ImageSize(refs: set<ItemRef>, variables: map<ItemRef, VariableId>)
    requires refs <= variables.Keys
    requires forall r, s :: r in variables && s in variables && variables[r] == variables[s] ==> r == s
    ensures |Image(refs, variables)| == |refs|
    decreases |refs|
  {
    if refs != {} {
      var r :| r in refs;
      ImageSize(refs - {r}, variables);
      assert Image(refs, variables) == Image(refs - {r}, variables) + {variables[r]};
    } else {
      assert Image(refs, variables) == {};
    }
  }

  lemma {:induction false} VariablesInjective(draft: Draft, encode: Encoding, r: ItemRef, s: ItemRef)
    requires Clean(draft) && Injective(encode)
    requires r in VariablesOf(draft, encode) && s in VariablesOf(draft, encode)
    requires VariablesOf(draft, encode)[r] == VariablesOf(draft, encode)[s]
    ensures r == s
  {
    hide Clean, VariableText;
    var i, j := RefStands(draft, encode, r);
    var k, l := RefStands(draft, encode, s);
    VariableAt(draft, encode, i, j);
    VariableAt(draft, encode, k, l);
    RefTextsDiffer(draft.id, r, s);
  }

  lemma {:induction false} RefStands(draft: Draft, encode: Encoding, ref: ItemRef) returns (i: nat, j: nat)
    requires ref in VariablesOf(draft, encode)
    ensures i < |draft.categories| && j < |draft.categories[i].items| && ref == RefAt(draft.categories, i, j)
  {
    i, j :| 0 <= i < |draft.categories| && 0 <= j < |draft.categories[i].items| && RefAt(draft.categories, i, j) == ref;
  }

  // ----- counting rows -----

  /** Variables with `n` candidates multiply, settled ones do not count. */
  lemma {:induction false} RowsArePower(candidates: CandidateDomains, vs: seq<VariableId>, free: set<VariableId>,
      n: nat)
    requires NoDuplicates(vs)
    requires forall v :: v in vs ==> v in candidates && |candidates[v]| == if v in free then n else 1
    ensures L.Rows(candidates, vs) == Power(n, |Elements(vs) * free|)
  {
    hide Elements;
    if vs != [] {
      var v, rest := vs[0], vs[1..];
      assert v in vs;
      OneMore(vs, free);
      RowsArePower(candidates, rest, free, n);
      assert L.Rows(candidates, vs) == |candidates[v]| * Power(n, |Elements(rest) * free|);
    } else {
      assert Elements(vs) == {} by { NoElements<VariableId>(); }
      assert Elements(vs) * free == {};
    }
  }

  /** The items of a clue that are not on a row of their own from the start. */
  function FreeItems(draft: Draft, t: Template): set<ItemRef> {
    set ref | ref in Refs(t) && ref.category != draft.anchorKey
  }

  function ItemsEach(draft: Draft): nat
    requires Clean(draft)
  {
    |draft.categories[AnchorIndex(draft)].items|
  }

  lemma {:induction false} RefOpens(draft: Draft, encode: Encoding, rows: seq<DomainValue>,
      candidates: CandidateDomains,
      ref: ItemRef)
    requires Clean(draft) && Opens(draft, encode, rows, candidates) && ref in VariablesOf(draft, encode)
    requires NoDuplicates(ValueIds(rows)) && |rows| == ItemsEach(draft)
    ensures var v := VariablesOf(draft, encode)[ref];
      && v in candidates
      && |candidates[v]| == (if ref.category == draft.anchorKey then 1 else ItemsEach(draft))
  {
    hide CleanCategory, CleanClue, VariablesOf, RowVariables;
    var i, j := RefStands(draft, encode, ref);
    VariableAt(draft, encode, i, j);
    assert OpensAt(draft, encode, rows, candidates, i, j);
    DistinctSize(ValueIds(rows));
    assert i == AnchorIndex(draft) <==> draft.categories[i].key == draft.anchorKey;
  }

  /** A compiled clue has as many rows at genesis as its free items have placements. */
  lemma {:induction false} ClueRowsAtGenesis(draft: Draft, encode: Encoding, rows: seq<DomainValue>,
      candidates: CandidateDomains, k: nat)
    requires Clean(draft) && Injective(encode) && k < |draft.clues| && Opens(draft, encode, rows, candidates)
    requires NoDuplicates(ValueIds(rows)) && |rows| == ItemsEach(draft)
    ensures L.ClueRows(candidates, CluesOf(draft, encode)[k].expression)
      == Power(ItemsEach(draft), |FreeItems(draft, draft.clues[k].template)|)
  {
    hide Clean, VariablesOf, Opens, L.Rows, Compile, Refs, Power, BooleanVariables, Ascending;
    var t, variables := draft.clues[k].template, VariablesOf(draft, encode);
    RefsAreKnown(draft, encode, k);
    CompiledVariables(t, variables);
    forall r, s | r in variables && s in variables && variables[r] == variables[s] ensures r == s {
      VariablesInjective(draft, encode, r, s);
    }
    var free := Image(FreeItems(draft, t), variables);
    ImageSize(FreeItems(draft, t), variables);
    var all := Image(Refs(t), variables);
    var vs := Ascending(all);
    AscendingElements(all);
    forall v | v in vs ensures v in candidates && |candidates[v]| == if v in free then ItemsEach(draft) else 1 {
      assert v in all;
      var ref :| ref in Refs(t) && v == variables[ref];
      RefOpens(draft, encode, rows, candidates, ref);
    }
    RowsArePower(candidates, vs, free, ItemsEach(draft));
    assert all * free == free;
  }

  /** Every clue leaves at most a million placements of its free items. */
  ghost predicate Tabulated(draft: Draft)
    requires Clean(draft)
  {
    forall k :: 0 <= k < |draft.clues| ==> ClueFits(draft, k)
  }

  ghost predicate ClueFits(draft: Draft, k: nat)
    requires Clean(draft) && k < |draft.clues|
  {
    Power(ItemsEach(draft), |FreeItems(draft, draft.clues[k].template)|) <= T.MAX_TABLE_COMBINATIONS
  }

  /** What can be read off a clean draft decides whether its genesis is within the table limit. */
  lemma {:induction false} DraftLimitsAreExact(draft: Draft, encode: Encoding, stateId: Identifier, branch: Identifier,
      n: nat)
    requires Clean(draft) && Injective(encode)
    ensures CompileDraft(draft, encode).puzzle.WellFormed()
    ensures InitialState(CompileDraft(draft, encode).puzzle, stateId, branch, n).Ok?
    ensures L.WithinLimits(CompileDraft(draft, encode).puzzle,
                         InitialState(CompileDraft(draft, encode).puzzle, stateId, branch, n).value.candidates)
      <==> Tabulated(draft)
  {
    hide Clean, CompileDraft, InitialState, Opens, Anchor, L.ClueRows, Power, Shaped, Puzzle.WellFormed, FreeItems,
      CluesOf;
    var spec := CompileDraft(draft, encode);
    DraftGenesisExists(draft, encode, stateId, branch, n);
    CompiledShape(draft, encode);
    CompiledAnchor(draft, encode);
    var candidates := InitialState(spec.puzzle, stateId, branch, n).value.candidates;
    forall k | 0 <= k < |draft.clues| ensures L.Tabulable(CluesOf(draft, encode)[k], candidates) <==> ClueFits(draft, k) {
      ClueRowsAtGenesis(draft, encode, Anchor(spec), candidates, k);
      ClueAt(draft, encode, k);
    }
    LimitsOfParts(draft, encode, candidates);
  }

  lemma {:induction false} ClueAt(draft: Draft, encode: Encoding, k: nat)
    requires Clean(draft) && k < |draft.clues|
    ensures CluesOf(draft, encode)[k].ArithmeticConstraint?
    ensures |draft.categories| + k < |CompileDraft(draft, encode).puzzle.constraints|
    ensures CompileDraft(draft, encode).puzzle.constraints[|draft.categories| + k] == CluesOf(draft, encode)[k]
  {
    hide Clean, DomainsOf, GivensOf, VariablesOf, Compile, RowVariables;
  }

  lemma {:induction false} LimitsOfParts(draft: Draft, encode: Encoding, candidates: CandidateDomains)
    requires Clean(draft)
    ensures L.WithinLimits(CompileDraft(draft, encode).puzzle, candidates) <==>
      forall k :: 0 <= k < |draft.clues| ==> L.Tabulable(CluesOf(draft, encode)[k], candidates)
  {
    hide Clean, CompileDraft, L.ClueRows, CluesOf;
    var cs := CompileDraft(draft, encode).puzzle.constraints;
    if L.WithinLimits(CompileDraft(draft, encode).puzzle, candidates) {
      forall k | 0 <= k < |draft.clues| ensures L.Tabulable(CluesOf(draft, encode)[k], candidates) {
        ClueAt(draft, encode, k);
        var c := cs[|draft.categories| + k];
        assert c in cs;
      }
    }
    if forall k :: 0 <= k < |draft.clues| ==> L.Tabulable(CluesOf(draft, encode)[k], candidates) {
      forall c | c in cs ensures L.Tabulable(c, candidates) {
        var m :| 0 <= m < |cs| && cs[m] == c;
        ConstraintAt(draft, encode, m);
      }
    }
  }
}

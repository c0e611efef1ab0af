/** Clean drafts compile to valid specifications that say what their clues say. */
module DraftTheorems {
  import opened Prelude
  import opened Domain
  import opened State
  import opened Solutions
  import opened Grid
  import opened LogicGrid
  import opened Templates
  import opened Drafts

  // ----- an encoding exists -----

  const BASE: int := 0x11_0001

  /** Text as a number, character by character. */
  function Numbered(s: string): (n: nat) {
    if s == "" then 0 else Numbered(s[..|s| - 1]) * BASE + (s[|s| - 1] as int + 1)
  }

  lemma {:induction false} DigitsAreUnique(a: nat, c: nat, b: nat, d: nat)
    requires c < BASE && d < BASE && a * BASE + c == b * BASE + d
    ensures a == b && c == d
  {
  }

  lemma {:induction false} NumberedIsInjective(s: string, t: string)
    requires Numbered(s) == Numbered(t)
    ensures s == t
    decreases |s|
  {
    if s != "" && t != "" {
      var m, n := |s| - 1, |t| - 1;
      DigitsAreUnique(Numbered(s[..m]), s[m] as int + 1, Numbered(t[..n]), t[n] as int + 1);
      NumberedIsInjective(s[..m], t[..n]);
      assert s == s[..m] + [s[m]] && t == t[..n] + [t[n]];
    }
  }

  /** Different texts can be given different identifiers. */
  lemma {:induction false} EncodingsExist() returns (encode: Encoding)
    ensures Injective(encode)
  {
    encode := s => Numbered(s);
    forall s, t | encode(s) == encode(t) ensures s == t {
      NumberedIsInjective(s, t);
    }
  }

  // ----- a clean draft exists -----

  function PairOf(key: string): DraftCategory {
    DraftCategory(key, [Item("x", None), Item("y", None)])
  }

  /** Three categories of two items, and one clue joining the last two. */
  function SmallDraft(revision: nat): Draft {
    Draft("small", revision, [PairOf("a"), PairOf("b"), PairOf("c")], "a",
          [DraftClue("k", Association(ItemRef("b", "x"), ItemRef("c", "y"), true))])
  }

  lemma {:induction false} PairIsClean(key: string)
    requires ValidKey(key)
    ensures CleanCategory(PairOf(key), 2)
  {
  }

  /** Associations across categories are neither numeric nor idle. */
  lemma {:induction false} LinksAreIdleFree(ts: seq<Template>)
    requires forall t :: t in ts ==> t.Association? && t.left.category != t.right.category
    ensures !AnyNode(ts, true) && !AnyNode(ts, false)
  {
    if ts != [] {
      assert ts == [ts[0]] + ts[1..] && ts[0] in ts;
      LinksAreIdleFree(ts[1..]);
    }
  }

  lemma {:induction false} SmallClueIsClean(revision: nat)
    ensures var draft := SmallDraft(revision);
      && (exists i :: 0 <= i < |draft.categories| && draft.categories[i].key == draft.anchorKey)
      && CleanClue(draft, draft.clues[0])
  {
    var draft := SmallDraft(revision);
    var cs := draft.categories;
    assert cs[0].key == draft.anchorKey;
    assert RefAt(cs, 1, 0) == ItemRef("b", "x") && RefAt(cs, 2, 1) == ItemRef("c", "y");
    assert HasItem(cs, ItemRef("b", "x")) && HasItem(cs, ItemRef("c", "y"));
    var t := draft.clues[0].template;
    LinksAreIdleFree([t]);
  }

  lemma {:induction false} SmallDraftIsClean(revision: nat)
    requires revision >= 1
    ensures Clean(SmallDraft(revision))
  {
    PairIsClean("a");
    PairIsClean("b");
    PairIsClean("c");
    SmallClueIsClean(revision);
    hide CleanClue, CleanCategory;
    var cs := SmallDraft(revision).categories;
    assert cs[0].key == "a" && cs[1].key == "b" && cs[2].key == "c";
    assert "a"[0] != "b"[0] && "b"[0] != "c"[0] && "a"[0] != "c"[0];
  }

  // ----- domains -----

  lemma {:induction false} DomainIdsDiffer(draft: Draft, encode: Encoding, a: string, b: string)
    requires Injective(encode) && encode(DomainText(draft.id, a)) == encode(DomainText(draft.id, b))
    ensures a == b
  {
    SharedPrefix(Scoped("deductra:domain:logic-grid:user:", draft.id), a, b);
  }

  lemma {:induction false} CategoryIdsDiffer(draft: Draft, encode: Encoding, a: string, b: string)
    requires Injective(encode) && encode(CategoryText(draft.id, a)) == encode(CategoryText(draft.id, b))
    ensures a == b
  {
    SharedPrefix(Scoped("deductra:category:logic-grid:user:", draft.id), a, b);
  }

  /** The domain of category `i`. */
  ghost predicate Declares(draft: Draft, encode: Encoding, domains: map<DomainId, seq<DomainValue>>, c: DraftCategory,
      anchorKey: string) {
    var d := encode(DomainText(draft.id, c.key));
    d in domains && domains[d] == ValuesOf(draft, encode, c, c.key == anchorKey)
  }

  lemma {:induction false} DomainsLookup(draft: Draft, encode: Encoding, cs: seq<DraftCategory>, anchorKey: string)
    requires Injective(encode) && KeysDiffer(cs)
    ensures forall i :: 0 <= i < |cs| ==> Declares(draft, encode, DomainsOf(draft, encode, cs, anchorKey), cs[i], anchorKey)
    ensures forall d :: d in DomainsOf(draft, encode, cs, anchorKey) ==>
      exists i :: 0 <= i < |cs| && d == encode(DomainText(draft.id, cs[i].key))
  {
    hide ValuesOf, DomainText;
    if cs != [] {
      var n := |cs| - 1;
      var earlier := DomainsOf(draft, encode, cs[..n], anchorKey);
      DomainsLookup(draft, encode, cs[..n], anchorKey);
      forall i | 0 <= i < |cs| ensures Declares(draft, encode, DomainsOf(draft, encode, cs, anchorKey), cs[i], anchorKey) {
        if i < n {
          assert cs[..n][i] == cs[i] && Declares(draft, encode, earlier, cs[..n][i], anchorKey);
          if encode(DomainText(draft.id, cs[i].key)) == encode(DomainText(draft.id, cs[n].key)) {
            DomainIdsDiffer(draft, encode, cs[i].key, cs[n].key);
          }
        }
      }
      forall d | d in DomainsOf(draft, encode, cs, anchorKey)
        ensures exists i :: 0 <= i < |cs| && d == encode(DomainText(draft.id, cs[i].key))
      {
        if d in earlier {
          var i :| 0 <= i < |cs[..n]| && d == encode(DomainText(draft.id, cs[..n][i].key));
          assert cs[..n][i] == cs[i];
        } else {
          assert d == encode(DomainText(draft.id, cs[n].key));
        }
      }
    }
  }

  lemma {:induction false} ValuesDistinct(draft: Draft, encode: Encoding, c: DraftCategory, anchor: bool, size: nat)
    requires Injective(encode) && CleanCategory(c, size)
    ensures NoDuplicates(ValueIds(ValuesOf(draft, encode, c, anchor)))
  {
    hide ValueText, ValidKey;
    var ids := ValueIds(ValuesOf(draft, encode, c, anchor));
    forall i, j | 0 <= i < j < |ids| ensures ids[i] != ids[j] {
      RefTextsDiffer(draft.id, ItemRef(c.key, c.items[i].key), ItemRef(c.key, c.items[j].key));
    }
  }

  // ----- variables -----

  lemma {:induction false} CleanParts(draft: Draft, i: nat)
    requires Clean(draft) && i < |draft.categories|
    ensures CleanCategory(draft.categories[i], |draft.categories[0].items|) && KeysDiffer(draft.categories)
  {
  }

  /** Item `j` of category `i`. */
  lemma {:induction false} VariableAt(draft: Draft, encode: Encoding, i: nat, j: nat)
    requires Clean(draft) && i < |draft.categories| && j < |draft.categories[i].items|
    ensures var ref := RefAt(draft.categories, i, j);
      && ref in VariablesOf(draft, encode) && KeyedRef(ref)
      && VariablesOf(draft, encode)[ref] == RowVariables(draft, encode, draft.categories[i])[j]
      && VariablesOf(draft, encode)[ref] in VariablesOf(draft, encode).Values
  {
    hide ValidKey, VariableText;
    CleanParts(draft, i);
    assert RefAt(draft.categories, i, j) in AllRefs(draft.categories);
  }

  lemma {:induction false} VariablesComeFrom(draft: Draft, encode: Encoding, v: VariableId) returns (i: nat, j: nat)
    requires Clean(draft) && v in VariablesOf(draft, encode).Values
    ensures i < |draft.categories| && j < |draft.categories[i].items|
    ensures v == RowVariables(draft, encode, draft.categories[i])[j]
  {
    hide VariableText, Clean;
    var ref :| ref in VariablesOf(draft, encode) && VariablesOf(draft, encode)[ref] == v;
    assert ref in AllRefs(draft.categories);
    i, j :| 0 <= i < |draft.categories| && 0 <= j < |draft.categories[i].items| && RefAt(draft.categories, i, j) == ref;
  }

  /** Different items have different variables. */
  lemma {:induction false} VariablesDiffer(draft: Draft, encode: Encoding, i: nat, j: nat, k: nat, l: nat)
    requires Clean(draft) && Injective(encode)
    requires i < |draft.categories| && j < |draft.categories[i].items|
    requires k < |draft.categories| && l < |draft.categories[k].items|
    requires RowVariables(draft, encode, draft.categories[i])[j] == RowVariables(draft, encode, draft.categories[k])[l]
    ensures i == k && j == l
  {
    hide ValidKey, VariableText;
    CleanParts(draft, i);
    CleanParts(draft, k);
    RefTextsDiffer(draft.id, RefAt(draft.categories, i, j), RefAt(draft.categories, k, l));
    assert draft.categories[i].key == draft.categories[k].key;
    assert i == k;
  }

  lemma {:induction false} VariableMember(draft: Draft, encode: Encoding, v: VariableId)
    requires Clean(draft)
    ensures v in VariablesOf(draft, encode).Values <==>
      exists i :: 0 <= i < |draft.categories| && v in RowVariables(draft, encode, draft.categories[i])
  {
    hide VariableText, Clean, RowVariables, VariablesOf;
    if v in VariablesOf(draft, encode).Values {
      var i, j := VariablesComeFrom(draft, encode, v);
      assert v in RowVariables(draft, encode, draft.categories[i]);
    }
    if i :| 0 <= i < |draft.categories| && v in RowVariables(draft, encode, draft.categories[i]) {
      var vs := RowVariables(draft, encode, draft.categories[i]);
      var j :| 0 <= j < |vs| && vs[j] == v;
      VariableAt(draft, encode, i, j);
    }
  }

  // ----- constraints -----

  lemma {:induction false} ConstraintIdsDiffer(draft: Draft, encode: Encoding)
    requires Clean(draft) && Injective(encode)
    ensures var cs := BijectionsOf(draft, encode) + CluesOf(draft, encode);
      forall i, j :: 0 <= i < j < |cs| ==> cs[i].id != cs[j].id
  {
    hide BijectionText, ClueText, ValidKey, CleanCategory, RowVariables, Compile, WellFormed, HasItem, AnyNode;
    var m := |draft.categories|;
    var cs := BijectionsOf(draft, encode) + CluesOf(draft, encode);
    forall i, j | 0 <= i < j < |cs| ensures cs[i].id != cs[j].id {
      if j < m {
        if BijectionText(draft.id, draft.categories[i].key) == BijectionText(draft.id, draft.categories[j].key) {
          BijectionTextsDiffer(draft.id, draft.categories[i].key, draft.categories[j].key);
        }
      } else if i < m {
        assert CleanClue(draft, draft.clues[j - m]);
        ConstraintTextsDiffer(draft.id, draft.categories[i].key, draft.clues[j - m].key);
      } else {
        ClueTextsDiffer(draft.id, draft.clues[i - m].key, draft.clues[j - m].key);
      }
    }
  }

  lemma {:induction false} ClueTextsDiffer(draft: string, a: string, b: string)
    ensures ClueText(draft, a) == ClueText(draft, b) ==> a == b
  {
    if ClueText(draft, a) == ClueText(draft, b) {
      SharedPrefix(Scoped("deductra:constraint:logic-grid:user:", draft), a, b);
    }
  }

  // ----- the specification -----

  lemma {:induction false} CompiledShape(draft: Draft, encode: Encoding)
    requires Clean(draft) && Injective(encode)
    ensures var spec := CompileDraft(draft, encode);
      && Shaped(spec)
      && Anchor(spec) == ValuesOf(draft, encode, draft.categories[AnchorIndex(draft)], true)
  {
    hide ValuesOf, DomainText, CluesOf, BijectionsOf, GivensOf, RowVariables, VariablesOf, CleanClue, CleanCategory;
    var spec := CompileDraft(draft, encode);
    var cs := draft.categories;
    DomainsLookup(draft, encode, cs, draft.anchorKey);
    ConstraintIdsDiffer(draft, encode);
    var k := AnchorIndex(draft);
    assert Declares(draft, encode, spec.puzzle.domains, cs[k], draft.anchorKey);
    forall d | d in spec.puzzle.domains
      ensures |spec.puzzle.domains[d]| > 0 && NoDuplicates(ValueIds(spec.puzzle.domains[d]))
    {
      var i :| 0 <= i < |cs| && d == encode(DomainText(draft.id, cs[i].key));
      assert Declares(draft, encode, spec.puzzle.domains, cs[i], draft.anchorKey);
      CleanParts(draft, i);
      CategoryHasItems(cs[i], |cs[0].items|);
      ValuesDistinct(draft, encode, cs[i], cs[i].key == draft.anchorKey, |cs[0].items|);
    }
  }

  lemma {:induction false} CategoryHasItems(c: DraftCategory, size: nat)
    requires CleanCategory(c, size)
    ensures |c.items| >= 2 && |c.items| == size
  {
  }

  lemma {:induction false} CategoriesApart(draft: Draft, encode: Encoding, i: nat, j: nat)
    requires Clean(draft) && Injective(encode) && i < j < |draft.categories|
    ensures var cs := CategoriesOf(draft, encode);
      cs[i].domain != cs[j].domain && cs[i].id != cs[j].id && Elements(cs[i].variables) !! Elements(cs[j].variables)
  {
    hide DomainText, CategoryText, CleanClue, CleanCategory, RowVariables;
    var cs, ds := CategoriesOf(draft, encode), draft.categories;
    RowsAreDisjoint(draft, encode, i, j);
    if cs[i].domain == cs[j].domain {
      DomainIdsDiffer(draft, encode, ds[i].key, ds[j].key);
    }
    if cs[i].id == cs[j].id {
      CategoryIdsDiffer(draft, encode, ds[i].key, ds[j].key);
    }
  }

  lemma {:induction false} CategorySizes(draft: Draft, encode: Encoding, i: nat)
    requires Clean(draft) && Injective(encode) && i < |draft.categories|
    ensures var c := CategoriesOf(draft, encode)[i];
      && NoDuplicates(c.variables)
      && |c.variables| == |draft.categories[AnchorIndex(draft)].items| >= 2
      && c.variables == RowVariables(draft, encode, draft.categories[i])
  {
    hide DomainText, CategoryText, CleanClue, CleanCategory;
    RowIsDistinct(draft, encode, i);
    CleanParts(draft, i);
    CleanParts(draft, AnchorIndex(draft));
    CategoryHasItems(draft.categories[i], |draft.categories[0].items|);
    CategoryHasItems(draft.categories[AnchorIndex(draft)], |draft.categories[0].items|);
  }

  lemma {:induction false} CompiledCategories(draft: Draft, encode: Encoding)
    requires Clean(draft) && Injective(encode) && Shaped(CompileDraft(draft, encode))
    requires |Anchor(CompileDraft(draft, encode))| == |draft.categories[AnchorIndex(draft)].items|
    ensures ValidCategories(CompileDraft(draft, encode))
  {
    hide CluesOf, BijectionsOf, GivensOf, VariablesOf, CleanClue, CleanCategory, Anchor, Shaped, RowVariables, DomainsOf, CategoriesOf,
      KeysDiffer;
    var spec := CompileDraft(draft, encode);
    var cs := CategoriesOf(draft, encode);
    assert spec.categories == cs;
    forall i, j | 0 <= i < j < |cs|
      ensures
        && cs[i].domain != cs[j].domain
        && cs[i].id != cs[j].id
        && Elements(cs[i].variables) !! Elements(cs[j].variables)
    {
      CategoriesApart(draft, encode, i, j);
    }
    forall i | 0 <= i < |cs|
      ensures NoDuplicates(cs[i].variables) && |cs[i].variables| == |Anchor(spec)| >= 2
      ensures cs[i].variables == RowVariables(draft, encode, draft.categories[i])
    {
      CategorySizes(draft, encode, i);
    }
    assert |Anchor(spec)| >= 2 by { CategorySizes(draft, encode, 0); }
    forall d ensures d in spec.puzzle.domains <==> exists i :: 0 <= i < |cs| && cs[i].domain == d {
      DomainIsCategory(draft, encode, d);
    }
    forall v ensures v in spec.puzzle.variables <==> exists i :: 0 <= i < |cs| && v in cs[i].variables {
      VariableMember(draft, encode, v);
    }
  }

  lemma {:induction false} DomainIsCategory(draft: Draft, encode: Encoding, d: DomainId)
    requires Clean(draft) && Injective(encode)
    ensures d in DomainsOf(draft, encode, draft.categories, draft.anchorKey)
      <==> exists i :: 0 <= i < |CategoriesOf(draft, encode)| && CategoriesOf(draft, encode)[i].domain == d
  {
    hide DomainText, RowVariables, CategoryText, CleanCategory, CleanClue;
    var domains, ds := DomainsOf(draft, encode, draft.categories, draft.anchorKey), draft.categories;
    DomainsLookup(draft, encode, ds, draft.anchorKey);
    if d in domains {
      var i :| 0 <= i < |ds| && d == encode(DomainText(draft.id, ds[i].key));
      assert CategoriesOf(draft, encode)[i].domain == d;
    }
    if i :| 0 <= i < |CategoriesOf(draft, encode)| && CategoriesOf(draft, encode)[i].domain == d {
      assert Declares(draft, encode, domains, ds[i], draft.anchorKey);
    }
  }

  lemma {:induction false} RowIsDistinct(draft: Draft, encode: Encoding, i: nat)
    requires Clean(draft) && Injective(encode) && i < |draft.categories|
    ensures NoDuplicates(RowVariables(draft, encode, draft.categories[i]))
  {
    hide RowVariables;
    var vs := RowVariables(draft, encode, draft.categories[i]);
    forall j, l | 0 <= j < l < |vs| ensures vs[j] != vs[l] {
      if vs[j] == vs[l] {
        VariablesDiffer(draft, encode, i, j, i, l);
      }
    }
  }

  lemma {:induction false} RowsAreDisjoint(draft: Draft, encode: Encoding, i: nat, k: nat)
    requires Clean(draft) && Injective(encode) && i < k < |draft.categories|
    ensures Elements(RowVariables(draft, encode, draft.categories[i])) !! Elements(RowVariables(draft, encode, draft.categories[k]))
  {
    hide RowVariables;
    var vs, ws := RowVariables(draft, encode, draft.categories[i]), RowVariables(draft, encode, draft.categories[k]);
    forall v | v in Elements(vs) ensures v !in Elements(ws) {
      if v in ws {
        var j :| 0 <= j < |vs| && vs[j] == v;
        var l :| 0 <= l < |ws| && ws[l] == v;
        VariablesDiffer(draft, encode, i, j, k, l);
      }
    }
  }

  lemma {:induction false} CompiledAnchor(draft: Draft, encode: Encoding)
    requires Clean(draft) && Injective(encode)
    ensures var anchor := draft.categories[AnchorIndex(draft)];
      var rows := ValuesOf(draft, encode, anchor, true);
      && NoDuplicates(ValueIds(rows)) && (forall k :: 0 <= k < |rows| ==> rows[k].ordinal == Some(k + 1))
      && (FullNumbers(anchor.items) <==> AllRationals(NumericOf(rows)))
  {
    var i := AnchorIndex(draft);
    CleanParts(draft, i);
    ValuesDistinct(draft, encode, draft.categories[i], true, |draft.categories[0].items|);
    NumbersCarry(draft, encode, draft.categories[i]);
  }

  lemma {:induction false} NumbersCarry(draft: Draft, encode: Encoding, c: DraftCategory)
    ensures FullNumbers(c.items) <==> AllRationals(NumericOf(ValuesOf(draft, encode, c, true)))
  {
    var numbers := NumericOf(ValuesOf(draft, encode, c, true));
    assert forall j :: 0 <= j < |c.items| ==> numbers[j] == c.items[j].numeric;
  }

  lemma {:induction false} CompiledConstraints(draft: Draft, encode: Encoding)
    requires Clean(draft) && Injective(encode) && Shaped(CompileDraft(draft, encode))
    requires Anchor(CompileDraft(draft, encode)) == ValuesOf(draft, encode, draft.categories[AnchorIndex(draft)], true)
    ensures ValidConstraints(CompileDraft(draft, encode))
  {
    hide Anchor, Shaped, RowVariables, VariablesOf, CleanCategory, CleanClue, Compile, Admitted, BooleanVariables, ValuesOf, DomainsOf,
      GivensOf, BijectionText, ClueText, Numeric, KeysDiffer, DomainText, CategoryText;
    var spec := CompileDraft(draft, encode);
    forall c | c in spec.puzzle.constraints ensures ValidConstraint(spec, c) {
      var k :| 0 <= k < |spec.puzzle.constraints| && spec.puzzle.constraints[k] == c;
      var m := |draft.categories|;
      if k < m {
        RowIsDistinct(draft, encode, k);
        assert Elements(c.variables) == Elements(spec.categories[k].variables);
      } else {
        CompiledClueIsValid(draft, encode, k - m);
      }
    }
    forall i | 0 <= i < |spec.categories| ensures HasBijection(spec, spec.categories[i]) {
      var c := BijectionsOf(draft, encode)[i];
      assert spec.puzzle.constraints[i] == c;
      assert c in spec.puzzle.constraints;
    }
  }

  lemma {:induction false} CompiledClueIsValid(draft: Draft, encode: Encoding, k: nat)
    requires Clean(draft) && Injective(encode) && Shaped(CompileDraft(draft, encode)) && k < |draft.clues|
    requires Anchor(CompileDraft(draft, encode)) == ValuesOf(draft, encode, draft.categories[AnchorIndex(draft)], true)
    ensures ValidConstraint(CompileDraft(draft, encode), CluesOf(draft, encode)[k])
  {
    hide Anchor, Shaped, RowVariables, CleanCategory, Admitted, BooleanVariables, ValuesOf, DomainsOf, GivensOf, VariablesOf, Compile,
      FullNumbers, AllRationals, NumericOf, AnyNode;
    var spec, t := CompileDraft(draft, encode), draft.clues[k].template;
    assert CleanClue(draft, draft.clues[k]);
    RefsAreKnown(draft, encode, k);
    CompiledAnchor(draft, encode);
    CompiledIsAdmitted(t, VariablesOf(draft, encode), Numeric(spec));
    assert spec.puzzle.variables.Keys == VariablesOf(draft, encode).Values;
  }

  lemma {:induction false} CompiledGivens(draft: Draft, encode: Encoding)
    requires Clean(draft) && Injective(encode) && Shaped(CompileDraft(draft, encode))
    requires Anchor(CompileDraft(draft, encode)) == ValuesOf(draft, encode, draft.categories[AnchorIndex(draft)], true)
    ensures ValidGivens(CompileDraft(draft, encode))
  {
    hide Anchor, Shaped, CleanCategory, CleanClue, DomainsOf, VariableText, ValueText, CluesOf, BijectionsOf,
      VariablesOf, SameCategory;
    var spec, k := CompileDraft(draft, encode), AnchorIndex(draft);
    var anchor := draft.categories[k];
    var rows, vs, gs := Anchor(spec), RowVariables(draft, encode, anchor), spec.puzzle.givens;
    RowIsDistinct(draft, encode, k);
    forall j | 0 <= j < |gs| ensures gs[j] == AssignmentAtom(vs[j], rows[j].id) && rows[j].id in ValueIds(rows) {
      assert ValueIds(rows)[j] == rows[j].id;
    }
    forall j | 0 <= j < |gs| ensures vs[j] in spec.puzzle.variables {
      VariableAt(draft, encode, k, j);
    }
    forall i, j | 0 <= i < |gs| && 0 <= j < |gs| ensures !Clash(spec, gs[i], gs[j]) && (i != j ==> gs[i] != gs[j]) {
      GivensDoNotClash(draft, encode, spec, i, j);
    }
    assert spec.categories[spec.anchorIndex].variables == vs;
  }

  lemma {:induction false} GivensDoNotClash(draft: Draft, encode: Encoding, spec: GridSpec, i: nat, j: nat)
    requires Clean(draft) && Injective(encode)
    requires i < |draft.categories[AnchorIndex(draft)].items| && j < |draft.categories[AnchorIndex(draft)].items|
    ensures var gs := GivensOf(draft, encode, draft.categories[AnchorIndex(draft)]);
      !Clash(spec, gs[i], gs[j]) && (i != j ==> gs[i] != gs[j])
  {
    hide CleanCategory, CleanClue, VariableText, ValueText, SameCategory, RowVariables, ValuesOf;
    var k := AnchorIndex(draft);
    var anchor := draft.categories[k];
    CleanParts(draft, k);
    VariableAt(draft, encode, k, i);
    VariableAt(draft, encode, k, j);
    RefTextsDiffer(draft.id, RefAt(draft.categories, k, i), RefAt(draft.categories, k, j));
    ItemKeysDiffer(anchor, |draft.categories[0].items|, i, j);
  }

  lemma {:induction false} ItemKeysDiffer(c: DraftCategory, size: nat, i: nat, j: nat)
    requires CleanCategory(c, size) && i < |c.items| && j < |c.items|
    ensures c.items[i].key == c.items[j].key <==> i == j
  {
  }

  /** Where its identifiers fit, a draft that validation finds complete and without fault compiles to a
      specification that passes the family's whole contract: derived identifiers never collide, bijections cover the categories, clues are
      admitted with the anchor data they need, and the anchor is fixed to its own rows. */
  lemma {:induction false} CompiledIsValid(draft: Draft, encode: Encoding)
    requires Clean(draft) && Injective(encode)
    ensures Valid(CompileDraft(draft, encode))
  {
    hide Clean, CompileDraft, ValuesOf, ValidCategories, ValidConstraints, ValidGivens, Shaped, Anchor, FullNumbers;
    CompiledShape(draft, encode);
    CompiledAnchor(draft, encode);
    CompiledCategories(draft, encode);
    CompiledConstraints(draft, encode);
    CompiledGivens(draft, encode);
    CompiledIsOrdered(draft, encode);
  }

  lemma {:induction false} CompiledIsOrdered(draft: Draft, encode: Encoding)
    requires Clean(draft)
    ensures CompileDraft(draft, encode).ordered
  {
  }

  // ----- when the identifiers fit -----

  /** A positive number has at most `k` digits exactly when it is below the `k`-th power of ten. */
  lemma {:induction false} DecimalLength(n: nat, k: nat)
    requires n >= 1
    ensures |Decimal(n)| <= k <==> n < Power(10, k)
  {
    if k == 0 {
    } else if n < 10 {
      PowersArePositive(k - 1);
    } else {
      DecimalLength(n / 10, k - 1);
    }
  }

  lemma {:induction false} PowersArePositive(k: nat)
    ensures Power(10, k) >= 1
  {
    if k > 0 {
      PowersArePositive(k - 1);
    }
  }

  lemma {:induction false} RefTextsFit(draft: string, ref: ItemRef)
    requires ValidKey(draft) && KeyedRef(ref)
    ensures |ValueText(draft, ref)| <= MAX_IDENTIFIER_LENGTH && |VariableText(draft, ref)| <= MAX_IDENTIFIER_LENGTH
  {
  }

  lemma {:induction false} KeyTextsFit(draft: string, key: string)
    requires ValidKey(draft) && ValidKey(key)
    ensures |DomainText(draft, key)| <= MAX_IDENTIFIER_LENGTH && |CategoryText(draft, key)| <= MAX_IDENTIFIER_LENGTH
    ensures |BijectionText(draft, key)| <= MAX_IDENTIFIER_LENGTH
    ensures |ClueText(draft, key)| <= MAX_IDENTIFIER_LENGTH && |ClueNameText(draft, key)| <= MAX_IDENTIFIER_LENGTH
  {
  }

  lemma {:induction false} DraftTextsFit(draft: string)
    requires ValidKey(draft)
    ensures |PuzzleText(draft)| <= MAX_IDENTIFIER_LENGTH && |ProvenanceText(draft)| <= MAX_IDENTIFIER_LENGTH
  {
  }

  /** Of all the identifiers of a clean draft only the revision's can be too long. */
  lemma {:induction false} OnlyRevisionCanOverflow(draft: Draft, t: string)
    requires Clean(draft) && t in IdentifierTexts(draft) && |t| > MAX_IDENTIFIER_LENGTH
    ensures t == RevisionText(draft.id, draft.revision)
  {
    hide ValidKey, CategoryTexts, ItemTexts, ClueTexts, PuzzleText, ProvenanceText, RevisionText, CleanClue,
      CleanCategory;
    DraftTextsFit(draft.id);
    forall c, u | c in draft.categories && u in CategoryTexts(draft, c) ensures |u| <= MAX_IDENTIFIER_LENGTH {
      var i :| 0 <= i < |draft.categories| && draft.categories[i] == c;
      KeyOfCleanCategory(c, |draft.categories[0].items|);
      CategoryTextsFit(draft, c, u);
    }
    forall ref, u | ref in AllRefs(draft.categories) && u in ItemTexts(draft, ref) ensures |u| <= MAX_IDENTIFIER_LENGTH {
      var i, j :| 0 <= i < |draft.categories| && 0 <= j < |draft.categories[i].items| && RefAt(draft.categories, i, j) == ref;
      RefIsKeyed(draft.categories, i, j, |draft.categories[0].items|);
      ItemTextsFit(draft, ref, u);
    }
    forall clue, u | clue in draft.clues && u in ClueTexts(draft, clue) ensures |u| <= MAX_IDENTIFIER_LENGTH {
      var k :| 0 <= k < |draft.clues| && draft.clues[k] == clue;
      assert CleanClue(draft, draft.clues[k]);
      KeyOfCleanClue(draft, clue);
      ClueTextsFit(draft, clue, u);
    }
  }

  lemma {:induction false} CategoryTextsFit(draft: Draft, c: DraftCategory, t: string)
    requires ValidKey(draft.id) && ValidKey(c.key) && t in CategoryTexts(draft, c)
    ensures |t| <= MAX_IDENTIFIER_LENGTH
  {
    KeyTextsFit(draft.id, c.key);
  }

  lemma {:induction false} ItemTextsFit(draft: Draft, ref: ItemRef, t: string)
    requires ValidKey(draft.id) && KeyedRef(ref) && t in ItemTexts(draft, ref)
    ensures |t| <= MAX_IDENTIFIER_LENGTH
  {
    RefTextsFit(draft.id, ref);
  }

  lemma {:induction false} ClueTextsFit(draft: Draft, clue: DraftClue, t: string)
    requires ValidKey(draft.id) && ValidKey(clue.key) && t in ClueTexts(draft, clue)
    ensures |t| <= MAX_IDENTIFIER_LENGTH
  {
    KeyTextsFit(draft.id, clue.key);
  }

  lemma {:induction false} RefIsKeyed(cs: seq<DraftCategory>, i: nat, j: nat, size: nat)
    requires i < |cs| && j < |cs[i].items| && CleanCategory(cs[i], size)
    ensures KeyedRef(RefAt(cs, i, j))
  {
  }

  lemma {:induction false} KeyOfCleanClue(draft: Draft, clue: DraftClue)
    requires exists i :: 0 <= i < |draft.categories| && draft.categories[i].key == draft.anchorKey
    requires CleanClue(draft, clue)
    ensures ValidKey(clue.key)
  {
  }

  lemma {:induction false} KeyOfCleanCategory(c: DraftCategory, size: nat)
    requires CleanCategory(c, size)
    ensures ValidKey(c.key)
  {
  }

  /** The digits a draft's revision may have. */
  function RevisionDigits(draft: Draft): int {
    MAX_IDENTIFIER_LENGTH - |Scoped("deductra:revision:logic-grid:user:", draft.id)|
  }

  /** A clean draft compiles exactly when its revision number is short enough, and then to a valid
      specification; the draft identifier decides how short. */
  lemma {:induction false} CompilesExactly(draft: Draft, encode: Encoding)
    requires Clean(draft) && Injective(encode)
    ensures CompileBounded(draft, encode).Ok? <==> |RevisionText(draft.id, draft.revision)| <= MAX_IDENTIFIER_LENGTH
    ensures RevisionDigits(draft) == 220 - |draft.id| > 0
    ensures CompileBounded(draft, encode).Ok? <==> draft.revision < Power(10, RevisionDigits(draft))
    ensures CompileBounded(draft, encode).Ok? ==> Valid(CompileBounded(draft, encode).value)
  {
    hide CompileDraft, Valid, Power, Decimal;
    var t := RevisionText(draft.id, draft.revision);
    assert t in IdentifierTexts(draft);
    if long :| long in IdentifierTexts(draft) && |long| > MAX_IDENTIFIER_LENGTH {
      OnlyRevisionCanOverflow(draft, long);
    }
    DecimalLength(draft.revision, RevisionDigits(draft));
    CompiledIsValid(draft, encode);
  }

  /** A clean draft can have a revision number that is too long. */
  lemma {:induction false} LongRevisionFails(encode: Encoding) returns (draft: Draft)
    requires Injective(encode)
    ensures Clean(draft) && CompileBounded(draft, encode) == Err(InvalidValue)
  {
    hide Clean, Power;
    PowersArePositive(250);
    draft := SmallDraft(Power(10, 250));
    SmallDraftIsClean(Power(10, 250));
    CompilesExactly(draft, encode);
    PowersGrow(215, 250);
  }

  lemma {:induction false} PowersGrow(k: nat, m: nat)
    requires k <= m
    ensures Power(10, k) <= Power(10, m)
    decreases m - k
  {
    if k < m {
      PowersArePositive(k);
      PowersGrow(k + 1, m);
    }
  }

  // ----- what the compiled clues say -----

  /** The rows an assignment puts the items on. */
  ghost function PlacementOf(draft: Draft, encode: Encoding, rows: seq<DomainValue>, a: Assignment): Placement
    requires forall ref :: ref in VariablesOf(draft, encode) ==>
      VariablesOf(draft, encode)[ref] in a && a[VariablesOf(draft, encode)[ref]] in ValueIds(rows)
  {
    map ref | ref in VariablesOf(draft, encode) :: IndexOf(ValueIds(rows), a[VariablesOf(draft, encode)[ref]])
  }

  lemma {:induction false} CompleteIsPlaced(draft: Draft, encode: Encoding, a: Assignment)
    requires Clean(draft) && Injective(encode) && Shaped(CompileDraft(draft, encode))
    requires Complete(CompileDraft(draft, encode).puzzle, a)
    ensures forall ref :: ref in VariablesOf(draft, encode) ==>
      && VariablesOf(draft, encode)[ref] in a
      && a[VariablesOf(draft, encode)[ref]] in ValueIds(Anchor(CompileDraft(draft, encode)))
  {
    hide VariablesOf, DomainsOf, CluesOf, BijectionsOf, GivensOf, CategoriesOf, CleanClue, CleanCategory, Anchor;
    var spec := CompileDraft(draft, encode);
    forall ref | ref in VariablesOf(draft, encode)
      ensures VariablesOf(draft, encode)[ref] in a && a[VariablesOf(draft, encode)[ref]] in ValueIds(Anchor(spec))
    {
      var v := VariablesOf(draft, encode)[ref];
      assert v in VariablesOf(draft, encode).Values;
      assert v in spec.puzzle.variables;
      GridIds(spec, v);
    }
  }

  /** The compiled clue holds of an assignment exactly when the template's stated meaning holds of the rows
      it puts the items on. */
  lemma {:induction false} CompiledClueMeans(draft: Draft, encode: Encoding, k: nat,
      a: Assignment) returns (place: Placement)
    requires Clean(draft) && Injective(encode) && k < |draft.clues|
    requires Shaped(CompileDraft(draft, encode)) && Valid(CompileDraft(draft, encode))
    requires Complete(CompileDraft(draft, encode).puzzle, a)
    ensures var spec := CompileDraft(draft, encode);
      && CluesOf(draft, encode)[k] in spec.puzzle.constraints
      && Shows(VariablesOf(draft, encode), place, Anchor(spec), a)
      && Refs(draft.clues[k].template) <= place.Keys
      && (ConstraintHolds(spec.puzzle, CluesOf(draft, encode)[k], a)
          <==> Means(draft.clues[k].template, place, NumericOf(Anchor(spec))))
  {
    hide Clean, Valid, Shaped, Anchor, Compile, Means, Judge, ClueHolds, CodesOf, Refs, VariablesOf, Numeric, DomainsOf, BijectionsOf,
      GivensOf, CategoriesOf, ValidConstraint;
    var spec, t := CompileDraft(draft, encode), draft.clues[k].template;
    CompleteIsPlaced(draft, encode, a);
    place := PlacementOf(draft, encode, Anchor(spec), a);
    PlacementShows(draft, encode, Anchor(spec), a);
    RefsAreKnown(draft, encode, k);
    ClueIsListed(draft, encode, k);
    CompiledSuits(draft, encode, k);
    CompiledMeans(t, VariablesOf(draft, encode), place, Anchor(spec), a);
    ClueAdmitted(draft, encode, k);
    ClueAgrees(spec, CluesOf(draft, encode)[k].expression, a);
  }

  lemma {:induction false} PlacementShows(draft: Draft, encode: Encoding, rows: seq<DomainValue>, a: Assignment)
    requires forall ref :: ref in VariablesOf(draft, encode) ==>
      VariablesOf(draft, encode)[ref] in a && a[VariablesOf(draft, encode)[ref]] in ValueIds(rows)
    ensures Shows(VariablesOf(draft, encode), PlacementOf(draft, encode, rows, a), rows, a)
  {
    hide VariablesOf;
  }

  lemma {:induction false} ClueIsListed(draft: Draft, encode: Encoding, k: nat)
    requires Clean(draft) && k < |draft.clues|
    ensures CluesOf(draft, encode)[k] in CompileDraft(draft, encode).puzzle.constraints
  {
    hide Clean, Compile, DomainsOf, GivensOf, VariablesOf;
    assert CompileDraft(draft, encode).puzzle.constraints[|draft.categories| + k] == CluesOf(draft, encode)[k];
  }

  lemma {:induction false} CompiledSuits(draft: Draft, encode: Encoding, k: nat)
    requires Clean(draft) && Injective(encode) && k < |draft.clues|
    ensures Shaped(CompileDraft(draft, encode)) && Suits(draft.clues[k].template, Anchor(CompileDraft(draft, encode)))
  {
    hide Shaped, Anchor, CompileDraft, ValuesOf, FullNumbers, AllRationals, CleanCategory, AnyNode, HasItem, WellFormed;
    CompiledShape(draft, encode);
    CompiledAnchor(draft, encode);
    assert CleanClue(draft, draft.clues[k]);
  }

  lemma {:induction false} ClueAdmitted(draft: Draft, encode: Encoding, k: nat)
    requires Clean(draft) && Injective(encode) && k < |draft.clues|
    requires Shaped(CompileDraft(draft, encode)) && Valid(CompileDraft(draft, encode))
    ensures var spec := CompileDraft(draft, encode);
      && ValidAnchor(Anchor(spec), spec.ordered, Numeric(spec))
      && Admitted(CluesOf(draft, encode)[k].expression, spec.puzzle.variables.Keys, spec.ordered, Numeric(spec))
  {
    hide Clean, CompileDraft, Shaped, ValidCategories, ValidGivens, Anchor, Admitted, HasBijection, Compile,
      ValidAnchor, Numeric;
    ClueIsListed(draft, encode, k);
    assert ValidConstraint(CompileDraft(draft, encode), CluesOf(draft, encode)[k]);
  }
}

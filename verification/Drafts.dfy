/** Guided drafts: what validation demands of them, and the specification they compile to. */
module Drafts {
  import opened Prelude
  import opened Domain
  import opened Grid
  import opened LogicGrid
  import opened Templates

  datatype Item = Item(key: string, numeric: Option<Number>)
  datatype DraftCategory = DraftCategory(key: string, items: seq<Item>)
  datatype DraftClue = DraftClue(key: string, template: Template)
  datatype Draft = Draft(
    id: string, revision: nat, categories: seq<DraftCategory>, anchorKey: string, clues: seq<DraftClue>)

  // ----- keys and derived identifiers -----

  predicate IsLetter(c: char) {
    'a' <= c <= 'z'
  }

  predicate IsKeyChar(c: char) {
    IsLetter(c) || '0' <= c <= '9' || c == '-'
  }

  /** A lower-case letter, then up to 63 letters, digits and hyphens. */
  predicate ValidKey(k: string) {
    0 < |k| <= 64 && IsLetter(k[0]) && forall i :: 0 <= i < |k| ==> IsKeyChar(k[i])
  }

  const SEPARATOR: string := ":"
  const BIJECTION: string := ":bijection"

  function Scoped(kind: string, draft: string): string {
    kind + draft + SEPARATOR
  }

  /** Identifier text, as the builder derives it. */
  function DomainText(draft: string, category: string): string {
    Scoped("deductra:domain:logic-grid:user:", draft) + category
  }

  function CategoryText(draft: string, category: string): string {
    Scoped("deductra:category:logic-grid:user:", draft) + category
  }

  function ValueText(draft: string, ref: ItemRef): string {
    Scoped("deductra:value:logic-grid:user:", draft) + (ref.category + SEPARATOR + ref.item)
  }

  function VariableText(draft: string, ref: ItemRef): string {
    Scoped("deductra:variable:logic-grid:user:", draft) + (ref.category + SEPARATOR + ref.item)
  }

  function BijectionText(draft: string, category: string): string {
    Scoped("deductra:constraint:logic-grid:user:", draft) + (category + BIJECTION)
  }

  function ClueText(draft: string, clue: string): string {
    Scoped("deductra:constraint:logic-grid:user:", draft) + clue
  }

  function ClueNameText(draft: string, clue: string): string {
    Scoped("deductra:clue:logic-grid:user:", draft) + clue
  }

  function PuzzleText(draft: string): string {
    "deductra:puzzle:logic-grid:user:" + draft
  }

  function ProvenanceText(draft: string): string {
    Scoped("deductra:provenance:logic-grid:user:", draft) + "builder"
  }

  function RevisionText(draft: string, revision: nat): string {
    Scoped("deductra:revision:logic-grid:user:", draft) + Decimal(revision)
  }

  /** `str` of a number. */
  function Decimal(n: nat): (s: string)
    ensures s != ""
  {
    if n < 10 then [Digit(n)] else Decimal(n / 10) + [Digit(n % 10)]
  }

  function Digit(n: nat): char
    requires n < 10
  {
    '0' + n as char
  }

  lemma {:induction false} SharedPrefix(p: string, a: string, b: string)
    requires p + a == p + b
    ensures a == b
  {
    assert (p + a)[|p|..] == a && (p + b)[|p|..] == b;
  }

  predicate NoColon(k: string) {
    forall i :: 0 <= i < |k| ==> k[i] != ':'
  }

  lemma {:induction false} KeysHaveNoColon(k: string)
    requires ValidKey(k)
    ensures NoColon(k)
  {
    forall i | 0 <= i < |k| ensures k[i] != ':' {
      assert IsKeyChar(k[i]);
    }
  }

  /** Joined keys come apart in one way only. */
  lemma {:induction false} JoinIsInjective(a: string, x: string, b: string, y: string)
    requires NoColon(a) && NoColon(b) && a + SEPARATOR + x == b + SEPARATOR + y
    ensures a == b && x == y
  {
    var s, t := a + SEPARATOR + x, b + SEPARATOR + y;
    assert s[|a|] == ':' && t[|b|] == ':';
    assert forall i :: 0 <= i < |a| ==> s[i] == a[i];
    assert forall i :: 0 <= i < |b| ==> t[i] == b[i];
    assert |a| == |b|;
    assert a == s[..|a|] && b == t[..|b|];
    assert x == s[|a| + 1..] && y == t[|b| + 1..];
  }

  /** How identifier text is represented; different texts are different identifiers. */
  type Encoding = string -> Identifier

  ghost predicate Injective(encode: Encoding) {
    forall s, t :: encode(s) == encode(t) ==> s == t
  }

  predicate KeyedRef(ref: ItemRef) {
    ValidKey(ref.category) && ValidKey(ref.item)
  }

  lemma {:induction false} RefTextsDiffer(draft: string, r: ItemRef, s: ItemRef)
    requires KeyedRef(r) && KeyedRef(s)
    ensures VariableText(draft, r) == VariableText(draft, s) ==> r == s
    ensures ValueText(draft, r) == ValueText(draft, s) ==> r == s
  {
    hide ValidKey;
    KeysHaveNoColon(r.category);
    KeysHaveNoColon(s.category);
    var x, y := r.category + SEPARATOR + r.item, s.category + SEPARATOR + s.item;
    if VariableText(draft, r) == VariableText(draft, s) {
      SharedPrefix(Scoped("deductra:variable:logic-grid:user:", draft), x, y);
      JoinIsInjective(r.category, r.item, s.category, s.item);
    }
    if ValueText(draft, r) == ValueText(draft, s) {
      SharedPrefix(Scoped("deductra:value:logic-grid:user:", draft), x, y);
      JoinIsInjective(r.category, r.item, s.category, s.item);
    }
  }

  /** A clue key is never mistaken for a bijection. */
  lemma {:induction false} ConstraintTextsDiffer(draft: string, category: string, clue: string)
    requires ValidKey(clue)
    ensures BijectionText(draft, category) != ClueText(draft, clue)
  {
    KeysHaveNoColon(clue);
    var s := category + BIJECTION;
    assert s[|category|] == ':';
    assert s != clue;
    if BijectionText(draft, category) == ClueText(draft, clue) {
      SharedPrefix(Scoped("deductra:constraint:logic-grid:user:", draft), s, clue);
    }
  }

  lemma {:induction false} BijectionTextsDiffer(draft: string, a: string, b: string)
    requires BijectionText(draft, a) == BijectionText(draft, b)
    ensures a == b
  {
    SharedPrefix(Scoped("deductra:constraint:logic-grid:user:", draft), a + BIJECTION, b + BIJECTION);
    assert (a + BIJECTION)[..|a + BIJECTION| - |BIJECTION|] == a;
    assert (b + BIJECTION)[..|b + BIJECTION| - |BIJECTION|] == b;
  }

  // ----- validation -----

  const MAX_BUILDER_CATEGORIES := 8
  const MAX_BUILDER_ITEMS := 8
  const MAX_BUILDER_CLUES := 128

  predicate KeysDiffer(categories: seq<DraftCategory>) {
    forall i, j :: 0 <= i < j < |categories| ==> categories[i].key != categories[j].key
  }

  predicate ItemsDiffer(items: seq<Item>) {
    forall i, j :: 0 <= i < j < |items| ==> items[i].key != items[j].key
  }

  predicate CleanCategory(c: DraftCategory, size: nat) {
    && ValidKey(c.key) && 2 <= |c.items| <= MAX_BUILDER_ITEMS && |c.items| == size
    && ItemsDiffer(c.items) && forall i :: 0 <= i < |c.items| ==> ValidKey(c.items[i].key)
  }

  predicate HasItem(categories: seq<DraftCategory>, ref: ItemRef) {
    exists i, j :: 0 <= i < |categories| && 0 <= j < |categories[i].items| && RefAt(categories, i, j) == ref
  }

  function RefAt(categories: seq<DraftCategory>, i: nat, j: nat): ItemRef
    requires i < |categories| && j < |categories[i].items|
  {
    ItemRef(categories[i].key, categories[i].items[j].key)
  }

  predicate FullNumbers(items: seq<Item>) {
    forall i :: 0 <= i < |items| ==> items[i].numeric.Some?
  }

  /** What a draft without INVALID or INCOMPLETE messages is sure to satisfy. Limits on texts and on numbers
      that no clue uses are not needed below, so they are not asked for. */
  predicate Clean(draft: Draft) {
    var cs := draft.categories;
    && ValidKey(draft.id) && draft.revision >= 1
    && 3 <= |cs| <= MAX_BUILDER_CATEGORIES && KeysDiffer(cs)
    && (forall i :: 0 <= i < |cs| ==> CleanCategory(cs[i], |cs[0].items|))
    && (exists i :: 0 <= i < |cs| && cs[i].key == draft.anchorKey)
    && 0 < |draft.clues| <= MAX_BUILDER_CLUES
    && (forall i, j :: 0 <= i < j < |draft.clues| ==> draft.clues[i].key != draft.clues[j].key)
    && (forall i :: 0 <= i < |draft.clues| ==> CleanClue(draft, draft.clues[i]))
  }

  predicate CleanClue(draft: Draft, clue: DraftClue)
    requires exists i :: 0 <= i < |draft.categories| && draft.categories[i].key == draft.anchorKey
  {
    && ValidKey(clue.key) && WellFormed(clue.template)
    && (forall ref :: ref in Refs(clue.template) ==> HasItem(draft.categories, ref))
    && !AnyNode([clue.template], false)
    && (AnyNode([clue.template], true) ==> FullNumbers(draft.categories[AnchorIndex(draft)].items))
  }

  function AnchorIndex(draft: Draft): (i: nat)
    requires exists i :: 0 <= i < |draft.categories| && draft.categories[i].key == draft.anchorKey
    ensures i < |draft.categories| && draft.categories[i].key == draft.anchorKey
  {
    IndexOfKey(draft.categories, draft.anchorKey)
  }

  function IndexOfKey(categories: seq<DraftCategory>, key: string): (i: nat)
    requires exists i :: 0 <= i < |categories| && categories[i].key == key
    ensures i < |categories| && categories[i].key == key
  {
    if categories[0].key == key then 0
    else
      assert exists i :: 0 <= i < |categories[1..]| && categories[1..][i].key == key by {
        var i :| 0 <= i < |categories| && categories[i].key == key;
        assert categories[1..][i - 1].key == key;
      }
      1 + IndexOfKey(categories[1..], key)
  }

  // ----- compilation -----

  function AllRefs(categories: seq<DraftCategory>): set<ItemRef> {
    set i, j | 0 <= i < |categories| && 0 <= j < |categories[i].items| :: RefAt(categories, i, j)
  }

  function VariablesOf(draft: Draft, encode: Encoding): map<ItemRef, VariableId> {
    map ref | ref in AllRefs(draft.categories) :: encode(VariableText(draft.id, ref))
  }

  /** The values of one category; only the anchor's are numbered. */
  function ValuesOf(draft: Draft, encode: Encoding, c: DraftCategory, anchor: bool): (values: seq<DomainValue>)
    ensures |values| == |c.items|
  {
    seq(|c.items|, j requires 0 <= j < |c.items| =>
      DomainValue(encode(ValueText(draft.id, ItemRef(c.key, c.items[j].key))),
                  if anchor then Some(j + 1) else None, if anchor then c.items[j].numeric else None))
  }

  function DomainsOf(draft: Draft, encode: Encoding, categories: seq<DraftCategory>,
      anchorKey: string): map<DomainId, seq<DomainValue>> {
    if categories == [] then map[]
    else
      var n := |categories| - 1;
      DomainsOf(draft, encode, categories[..n], anchorKey)
        [encode(DomainText(draft.id, categories[n].key)) := ValuesOf(draft, encode, categories[n], categories[n].key == anchorKey)]
  }

  function RowVariables(draft: Draft, encode: Encoding, c: DraftCategory): (vs: seq<VariableId>)
    ensures |vs| == |c.items|
  {
    seq(|c.items|, j requires 0 <= j < |c.items| => encode(VariableText(draft.id, ItemRef(c.key, c.items[j].key))))
  }

  function CategoriesOf(draft: Draft, encode: Encoding): (cs: seq<Category>)
    ensures |cs| == |draft.categories|
  {
    seq(|draft.categories|, i requires 0 <= i < |draft.categories| =>
      var c := draft.categories[i];
      Category(encode(CategoryText(draft.id, c.key)), encode(DomainText(draft.id, c.key)), RowVariables(draft, encode, c)))
  }

  function BijectionsOf(draft: Draft, encode: Encoding): (cs: seq<Constraint>)
    ensures |cs| == |draft.categories|
  {
    seq(|draft.categories|, i requires 0 <= i < |draft.categories| =>
      var c := draft.categories[i];
      AllDifferentConstraint(encode(BijectionText(draft.id, c.key)), RowVariables(draft, encode, c)))
  }

  lemma {:induction false} RefsAreKnown(draft: Draft, encode: Encoding, k: nat)
    requires Clean(draft) && k < |draft.clues|
    ensures Refs(draft.clues[k].template) <= VariablesOf(draft, encode).Keys
  {
    assert CleanClue(draft, draft.clues[k]);
    forall ref | ref in Refs(draft.clues[k].template) ensures ref in VariablesOf(draft, encode) {
      assert HasItem(draft.categories, ref);
      var i, j :| 0 <= i < |draft.categories| && 0 <= j < |draft.categories[i].items| && RefAt(draft.categories, i, j) == ref;
      assert ref in AllRefs(draft.categories);
    }
  }

  function CluesOf(draft: Draft, encode: Encoding): (cs: seq<Constraint>)
    requires Clean(draft)
    ensures |cs| == |draft.clues|
  {
    seq(|draft.clues|, k requires 0 <= k < |draft.clues| =>
      RefsAreKnown(draft, encode, k);
      ArithmeticConstraint(encode(ClueText(draft.id, draft.clues[k].key)),
                           Compile(draft.clues[k].template, VariablesOf(draft, encode))))
  }

  /** The anchor items stand on their own rows. */
  function GivensOf(draft: Draft, encode: Encoding, anchor: DraftCategory): (gs: seq<Atom>)
    ensures |gs| == |anchor.items|
  {
    seq(|anchor.items|, j requires 0 <= j < |anchor.items| =>
      var ref := ItemRef(anchor.key, anchor.items[j].key);
      AssignmentAtom(encode(VariableText(draft.id, ref)), encode(ValueText(draft.id, ref))))
  }

  /** `_compile` */
  function CompileDraft(draft: Draft, encode: Encoding): GridSpec
    requires Clean(draft)
  {
    var anchor := draft.categories[AnchorIndex(draft)];
    var variables := VariablesOf(draft, encode);
    GridSpec(
      Puzzle(encode(RevisionText(draft.id, draft.revision)), LOGIC_GRID_FAMILY,
             DomainsOf(draft, encode, draft.categories, draft.anchorKey),
             map v | v in variables.Values :: encode(DomainText(draft.id, draft.anchorKey)),
             BijectionsOf(draft, encode) + CluesOf(draft, encode),
             GivensOf(draft, encode, anchor)),
      CategoriesOf(draft, encode), AnchorIndex(draft), true)
  }

  // ----- the bound on identifier text -----

  const MAX_IDENTIFIER_LENGTH := 255

  function CategoryTexts(draft: Draft, c: DraftCategory): set<string> {
    {DomainText(draft.id, c.key), CategoryText(draft.id, c.key), BijectionText(draft.id, c.key)}
  }

  function ItemTexts(draft: Draft, ref: ItemRef): set<string> {
    {ValueText(draft.id, ref), VariableText(draft.id, ref)}
  }

  function ClueTexts(draft: Draft, clue: DraftClue): set<string> {
    {ClueText(draft.id, clue.key), ClueNameText(draft.id, clue.key)}
  }

  /** Every identifier text the compilation derives. */
  function IdentifierTexts(draft: Draft): set<string> {
    (set c, t | c in draft.categories && t in CategoryTexts(draft, c) :: t)
    + (set ref, t | ref in AllRefs(draft.categories) && t in ItemTexts(draft, ref) :: t)
    + (set clue, t | clue in draft.clues && t in ClueTexts(draft, clue) :: t)
    + {PuzzleText(draft.id), ProvenanceText(draft.id), RevisionText(draft.id, draft.revision)}
  }

  /** `_compile` with its identifiers validated: a text that is too long fails the whole specification. */
  function CompileBounded(draft: Draft, encode: Encoding): Result<GridSpec>
    requires Clean(draft)
  {
    if exists t :: t in IdentifierTexts(draft) && |t| > MAX_IDENTIFIER_LENGTH then Err(InvalidValue)
    else Ok(CompileDraft(draft, encode))
  }
}

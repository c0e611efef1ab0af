/** Human rules: candidates, proposals, discovery in canonical order, and selection policies. */
module Rules {
  import opened Prelude
  import opened Domain
  import opened State
  import opened Events
  import opened Sorting

  datatype RuleReference = RuleReference(
    ruleId: Identifier, version: Identifier, scope: seq<Identifier>, rank: nat)

  /** The tie-break text of a candidate. The family rules use the canonical JSON of the conclusion,
      whose keys appear in the order kind, value, variable. */
  datatype TieBreak = AtomText(atom: Atom) | PlainText(text: Identifier) {
    function Order(): Key {
      match this
      case AtomText(AssignmentAtom(v, x)) => [0, x, v]
      case AtomText(ExclusionAtom(v, x)) => [1, x, v]
      case AtomText(OtherAtom(content)) => [2, content]
      case PlainText(text) => [3, text]
    }
  }

  datatype Candidate = Candidate(
    id: Identifier,
    rule: RuleReference,
    source: Digest,
    premises: seq<Atom>,
    affected: seq<VariableId>,
    supporting: seq<ConstraintId>,
    informationGain: nat,
    pedagogicalCost: nat,
    tieBreak: TieBreak)

  datatype Proposal = Proposal(
    candidate: Identifier,
    source: Digest,
    rule: RuleReference,
    premises: seq<Atom>,
    conclusions: seq<Atom>,
    affected: seq<VariableId>,
    supporting: seq<ConstraintId>)

  /** A rule finds candidates in a state and turns one into a proposal; either step may raise. */
  datatype Rule = Rule(
    reference: RuleReference,
    find: (Puzzle, PuzzleState) -> Result<seq<Candidate>>,
    apply: (Candidate, PuzzleState) -> Result<Proposal>)

  function Identity(rule: Rule): (Identifier, Identifier) {
    (rule.reference.ruleId, rule.reference.version)
  }

  predicate UniqueIdentities(rules: seq<Rule>) {
    forall i, j :: 0 <= i < j < |rules| ==> Identity(rules[i]) != Identity(rules[j])
  }

  /** Rules are visited in the order of their identities. */
  function RuleOrder(): (Rule) -> Key {
    (rule: Rule) => [rule.reference.ruleId, rule.reference.version]
  }

  /** The stable part of every ordering of candidates. */
  function StableTail(c: Candidate): Key {
    [c.rule.rank, c.rule.ruleId, c.rule.version] + c.tieBreak.Order() + [c.id]
  }

  function CanonicalOrder(): (Candidate) -> Key {
    (c: Candidate) => StableTail(c)
  }

  // ----- discovery -----

  /** One rule's candidates, refused if they name another rule or another state. */
  function Checked(rule: Rule, puzzle: Puzzle, state: PuzzleState): Result<seq<Candidate>> {
    if rule.reference.scope != [] && puzzle.family !in rule.reference.scope then Ok([])
    else
      var found :- rule.find(puzzle, state);
      if exists c :: c in found && (c.rule != rule.reference || c.source != OfState(state)) then Err(RuleContract)
      else Ok(found)
  }

  function Gather(rules: seq<Rule>, puzzle: Puzzle, state: PuzzleState): Result<seq<Candidate>> {
    if rules == [] then Ok([])
    else
      var first :- Checked(rules[0], puzzle, state);
      var rest :- Gather(rules[1..], puzzle, state);
      Ok(first + rest)
  }

  predicate UniqueIds(candidates: seq<Candidate>) {
    forall i, j :: 0 <= i < j < |candidates| ==> candidates[i].id != candidates[j].id
  }

  function Discover(puzzle: Puzzle, state: PuzzleState, rules: seq<Rule>): Result<seq<Candidate>> {
    if state.revision != puzzle.revision then Err(RuleContract)
    else if !UniqueIdentities(rules) then Err(RuleContract)
    else
      var discovered :- Gather(Sort(rules, RuleOrder()), puzzle, state);
      if !UniqueIds(discovered) then Err(RuleContract)
      else Ok(Sort(discovered, CanonicalOrder()))
  }

  /** `discover_rule_applications`, appending rule by rule before the final sort. */
  method DiscoverApplications(puzzle: Puzzle, state: PuzzleState, rules: seq<Rule>)
    returns (r: Result<seq<Candidate>>)
    ensures r == Discover(puzzle, state, rules)
  {
    if state.revision != puzzle.revision || !UniqueIdentities(rules) {
      return Err(RuleContract);
    }
    var ordered := Sort(rules, RuleOrder());
    var discovered: seq<Candidate> := [];
    assert ordered[0..] == ordered;
    AppendNothing(Gather(ordered, puzzle, state));
    for i := 0 to |ordered|
      invariant Gather(ordered, puzzle, state)
        == Append(discovered, Gather(ordered[i..], puzzle, state))
    {
      var found := Checked(ordered[i], puzzle, state);
      if found.Err? {
        return Err(found.error);
      }
      discovered := discovered + found.value;
      AppendAssociates(discovered, found.value, Gather(ordered[i + 1..], puzzle, state));
    }
    assert Append(discovered, Ok([])) == Ok(discovered + []);
    assert discovered + [] == discovered;
    if !UniqueIds(discovered) {
      return Err(RuleContract);
    }
    return Ok(Sort(discovered, CanonicalOrder()));
  }

  function Append(prefix: seq<Candidate>, rest: Result<seq<Candidate>>): Result<seq<Candidate>> {
    if rest.Err? then rest else Ok(prefix + rest.value)
  }

  lemma {:induction false} AppendNothing(rest: Result<seq<Candidate>>)
    ensures Append([], rest) == rest
  {
    if rest.Ok? {
      assert [] + rest.value == rest.value;
    }
  }

  lemma {:induction false} AppendAssociates(joined: seq<Candidate>, last: seq<Candidate>, rest: Result<seq<Candidate>>)
    ensures forall p :: joined == p + last ==> Append(p, Append(last, rest)) == Append(joined, rest)
  {
    forall p | joined == p + last ensures Append(p, Append(last, rest)) == Append(joined, rest) {
      if rest.Ok? {
        assert p + (last + rest.value) == joined + rest.value;
      }
    }
  }

  /** Every discovered candidate comes from one of the rules and names it and the state. */
  lemma {:induction false} DiscoveredBelong(puzzle: Puzzle, state: PuzzleState, rules: seq<Rule>, c: Candidate)
    requires Discover(puzzle, state, rules).Ok? && c in Discover(puzzle, state, rules).value
    ensures c.source == OfState(state)
    ensures exists i :: 0 <= i < |rules| && rules[i].reference == c.rule
  {
    var ordered := Sort(rules, RuleOrder());
    SortKeeps(rules, RuleOrder());
    SortKeeps(Gather(ordered, puzzle, state).value, CanonicalOrder());
    GatheredBelong(ordered, puzzle, state, c);
    var k :| 0 <= k < |ordered| && ordered[k].reference == c.rule;
    var rule := ordered[k];
    assert rule in rules;
    var i :| 0 <= i < |rules| && rules[i] == rule;
  }

  lemma {:induction false} GatheredBelong(rules: seq<Rule>, puzzle: Puzzle, state: PuzzleState, c: Candidate)
    requires Gather(rules, puzzle, state).Ok? && c in Gather(rules, puzzle, state).value
    ensures c.source == OfState(state)
    ensures exists i :: 0 <= i < |rules| && rules[i].reference == c.rule
  {
    if c in Checked(rules[0], puzzle, state).value {
      assert rules[0].reference == c.rule;
    } else {
      GatheredBelong(rules[1..], puzzle, state, c);
      var i :| 0 <= i < |rules[1..]| && rules[1..][i].reference == c.rule;
      assert rules[i + 1].reference == c.rule;
    }
  }

  /** Registration order does not matter: permuted rules discover the same candidates in the same order. */
  lemma {:induction false} DiscoveryForgetsOrder(puzzle: Puzzle, state: PuzzleState, rules: seq<Rule>,
      permuted: seq<Rule>)
    requires multiset(rules) == multiset(permuted)
    requires UniqueIdentities(rules) && UniqueIdentities(permuted)
    ensures Discover(puzzle, state, rules) == Discover(puzzle, state, permuted)
  {
    forall x, y | x in rules && y in rules && RuleOrder()(x) == RuleOrder()(y) ensures x == y {
      var i :| 0 <= i < |rules| && rules[i] == x;
      var j :| 0 <= j < |rules| && rules[j] == y;
      assert RuleOrder()(x)[0] == RuleOrder()(y)[0] && RuleOrder()(x)[1] == RuleOrder()(y)[1];
      assert Identity(rules[i]) == Identity(rules[j]);
    }
    SortForgetsOrder(rules, permuted, RuleOrder());
  }

  // ----- selection -----

  datatype Policy = TeachingFirst | ShortestTrace | MaxInformationGain | FamilyCanonical

  function Score(policy: Policy): (Candidate) -> Key {
    (c: Candidate) => ScoreOf(policy, c)
  }

  function ScoreOf(policy: Policy, c: Candidate): Key {
    var gain: int := c.informationGain;
    match policy
    case TeachingFirst => [c.pedagogicalCost] + StableTail(c)
    case ShortestTrace => [-gain, c.pedagogicalCost] + StableTail(c)
    case MaxInformationGain => [-gain] + StableTail(c)
    case FamilyCanonical => StableTail(c)
  }

  function Select(candidates: seq<Candidate>, policy: Policy): (r: Option<Candidate>)
    ensures r.None? <==> candidates == []
    ensures r.Some? ==> r.value in candidates
  {
    if candidates == [] then None else Some(MinBy(candidates, Score(policy)))
  }

  lemma {:induction false} ScoresDiffer(policy: Policy, c: Candidate, d: Candidate)
    requires c.id != d.id
    ensures ScoreOf(policy, c) != ScoreOf(policy, d)
  {
    var s, t := ScoreOf(policy, c), ScoreOf(policy, d);
    assert s[|s| - 1] == c.id && t[|t| - 1] == d.id;
  }

  /** Every policy orders candidates with distinct identifiers totally: the selected one is strictly
      ahead of all others, so it does not depend on how they are listed. */
  lemma {:induction false} SelectionIsStrict(candidates: seq<Candidate>, policy: Policy, c: Candidate)
    requires c in candidates && c.id != Select(candidates, policy).value.id
    ensures var best := Select(candidates, policy).value;
      LexLeq(Score(policy)(best), Score(policy)(c)) && !LexLeq(Score(policy)(c), Score(policy)(best))
  {
    var best := Select(candidates, policy).value;
    MinByIsLeast(candidates, Score(policy));
    LexTotal(Score(policy)(c), Score(policy)(best));
    ScoresDiffer(policy, c, best);
  }

  // ----- what a policy prefers -----

  /** Smaller first, then by what follows. */
  predicate First(a: int, b: int, rest: bool) {
    a < b || (a == b && rest)
  }

  /** Assignments before exclusions, each by value and then by variable; then opaque atoms, then plain texts. */
  predicate TieFirst(t: TieBreak, u: TieBreak, rest: bool) {
    match (t, u)
    case (AtomText(AssignmentAtom(v, x)), AtomText(AssignmentAtom(w, y))) => First(x, y, First(v, w, rest))
    case (AtomText(ExclusionAtom(v, x)), AtomText(ExclusionAtom(w, y))) => First(x, y, First(v, w, rest))
    case (AtomText(OtherAtom(c)), AtomText(OtherAtom(d))) => First(c, d, rest)
    case (PlainText(c), PlainText(d)) => First(c, d, rest)
    case (AtomText(AssignmentAtom(_, _)), _) => true
    case (AtomText(ExclusionAtom(_, _)), AtomText(OtherAtom(_))) => true
    case (AtomText(ExclusionAtom(_, _)), PlainText(_)) => true
    case (AtomText(OtherAtom(_)), PlainText(_)) => true
    case _ => false
  }

  /** Lower technique rank first, then rule, version, tie-break text and identifier. */
  predicate CanonicallyFirst(c: Candidate, d: Candidate) {
    First(c.rule.rank, d.rule.rank,
      First(c.rule.ruleId, d.rule.ruleId,
        First(c.rule.version, d.rule.version, TieFirst(c.tieBreak, d.tieBreak, c.id <= d.id))))
  }

  lemma {:induction false} LexHead(a: int, s: Key, b: int, t: Key)
    ensures LexLeq([a] + s, [b] + t) <==> First(a, b, LexLeq(s, t))
  {
    assert ([a] + s)[1..] == s && ([b] + t)[1..] == t;
  }

  lemma {:induction false} LexOne(a: int, b: int)
    ensures LexLeq([a], [b]) <==> a <= b
  {
    assert [a] == [a] + [] && [b] == [b] + [];
    LexHead(a, [], b, []);
  }

  lemma {:induction false} LexTie(t: TieBreak, u: TieBreak, a: int, b: int)
    ensures LexLeq(t.Order() + [a], u.Order() + [b]) <==> TieFirst(t, u, a <= b)
  {
    hide LexLeq;
    LexOne(a, b);
    var s, r := t.Order(), u.Order();
    assert s + [a] == [s[0]] + (s[1..] + [a]) && r + [b] == [r[0]] + (r[1..] + [b]);
    LexHead(s[0], s[1..] + [a], r[0], r[1..] + [b]);
    if s[0] == r[0] {
      assert s[1..] + [a] == [s[1]] + (s[2..] + [a]) && r[1..] + [b] == [r[1]] + (r[2..] + [b]);
      LexHead(s[1], s[2..] + [a], r[1], r[2..] + [b]);
      if |s| == 3 {
        assert s[2..] + [a] == [s[2]] + [a] && r[2..] + [b] == [r[2]] + [b];
        LexHead(s[2], [a], r[2], [b]);
      } else {
        assert s[2..] + [a] == [a] && r[2..] + [b] == [b];
      }
    }
  }

  lemma {:induction false} LexTail(c: Candidate, d: Candidate)
    ensures LexLeq(StableTail(c), StableTail(d)) <==> CanonicallyFirst(c, d)
  {
    hide LexLeq, TieBreak.Order, TieFirst;
    var s, t := c.tieBreak.Order() + [c.id], d.tieBreak.Order() + [d.id];
    LexTie(c.tieBreak, d.tieBreak, c.id, d.id);
    LexHead(c.rule.version, s, d.rule.version, t);
    LexHead(c.rule.ruleId, [c.rule.version] + s, d.rule.ruleId, [d.rule.version] + t);
    LexHead(c.rule.rank, [c.rule.ruleId] + ([c.rule.version] + s), d.rule.rank, [d.rule.ruleId] + ([d.rule.version] + t));
    assert StableTail(c) == [c.rule.rank] + ([c.rule.ruleId] + ([c.rule.version] + s));
    assert StableTail(d) == [d.rule.rank] + ([d.rule.ruleId] + ([d.rule.version] + t));
  }

  /** `best` costs less than `c`, or gains more, or gains more for less, and among equals, or under the canonical
      policy from the start, it comes canonically first. */
  predicate Preferred(policy: Policy, best: Candidate, c: Candidate) {
    var cheaper := First(best.pedagogicalCost, c.pedagogicalCost, CanonicallyFirst(best, c));
    match policy
    case TeachingFirst => cheaper
    case MaxInformationGain => First(c.informationGain, best.informationGain, CanonicallyFirst(best, c))
    case ShortestTrace => First(c.informationGain, best.informationGain, cheaper)
    case FamilyCanonical => CanonicallyFirst(best, c)
  }

  /** A policy selects what it prefers to every other candidate. */
  lemma {:induction false} PolicyPrefers(candidates: seq<Candidate>, policy: Policy, c: Candidate)
    requires c in candidates
    ensures Preferred(policy, Select(candidates, policy).value, c)
  {
    hide LexLeq, StableTail, CanonicallyFirst, MinBy;
    var best := Select(candidates, policy).value;
    MinByIsLeast(candidates, Score(policy));
    LexTail(best, c);
    var s, t := StableTail(best), StableTail(c);
    LexHead(best.pedagogicalCost, s, c.pedagogicalCost, t);
    var gain: int, other: int := best.informationGain, c.informationGain;
    LexHead(-gain, s, -other, t);
    LexHead(-gain, [best.pedagogicalCost] + s, -other, [c.pedagogicalCost] + t);
    assert [-gain, best.pedagogicalCost] + s == [-gain] + ([best.pedagogicalCost] + s);
    assert [-other, c.pedagogicalCost] + t == [-other] + ([c.pedagogicalCost] + t);
  }

  /** Discovery lists its candidates in canonical order. */
  lemma {:induction false} DiscoveredInOrder(puzzle: Puzzle, state: PuzzleState, rules: seq<Rule>, i: nat, j: nat)
    requires Discover(puzzle, state, rules).Ok? && i < j < |Discover(puzzle, state, rules).value|
    ensures CanonicallyFirst(Discover(puzzle, state, rules).value[i], Discover(puzzle, state, rules).value[j])
  {
    hide LexLeq, StableTail, CanonicallyFirst, Gather;
    var discovered := Gather(Sort(rules, RuleOrder()), puzzle, state).value;
    SortKeeps(discovered, CanonicalOrder());
    var found := Discover(puzzle, state, rules).value;
    OrderedIsSorted(found, CanonicalOrder(), i, j);
    LexTail(found[i], found[j]);
  }

  // ----- what is discovered -----

  /** The rule, which is registered for this family of puzzles, finds `c` at position `k`. */
  ghost predicate Offered(rule: Rule, puzzle: Puzzle, state: PuzzleState, k: nat, c: Candidate) {
    && (rule.reference.scope == [] || puzzle.family in rule.reference.scope)
    && rule.find(puzzle, state).Ok? && k < |rule.find(puzzle, state).value| && rule.find(puzzle, state).value[k] == c
  }

  /** The rule is not registered for this family, or finds candidates of its own in this very state. */
  ghost predicate Honest(rule: Rule, puzzle: Puzzle, state: PuzzleState) {
    || (rule.reference.scope != [] && puzzle.family !in rule.reference.scope)
    || (&& rule.find(puzzle, state).Ok?
        && forall c :: c in rule.find(puzzle, state).value ==> c.rule == rule.reference && c.source == OfState(state))
  }

  /** No identifier is offered at two places. */
  ghost predicate OfferedApart(rules: seq<Rule>, puzzle: Puzzle, state: PuzzleState) {
    forall i, j, k: nat, l: nat, c: Candidate, d: Candidate | 0 <= i < |rules| && 0 <= j < |rules| && c.id == d.id ::
      Offered(rules[i], puzzle, state, k, c) && Offered(rules[j], puzzle, state, l, d)
      ==> Identity(rules[i]) == Identity(rules[j]) && k == l
  }

  ghost predicate OfferedBy(rules: seq<Rule>, puzzle: Puzzle, state: PuzzleState, c: Candidate) {
    exists i, k: nat :: 0 <= i < |rules| && Offered(rules[i], puzzle, state, k, c)
  }

  /** Discovery succeeds exactly for the state's own puzzle, rules with identities of their own, each honest, and
      identifiers that are offered once. It finds exactly what is offered. */
  lemma {:induction false} DiscoveryExactly(puzzle: Puzzle, state: PuzzleState, rules: seq<Rule>)
    ensures Discover(puzzle, state, rules).Ok? <==>
      && state.revision == puzzle.revision && UniqueIdentities(rules)
      && (forall i :: 0 <= i < |rules| ==> Honest(rules[i], puzzle, state)) && OfferedApart(rules, puzzle, state)
    ensures Discover(puzzle, state, rules).Ok? ==>
      forall c :: c in Discover(puzzle, state, rules).value <==> OfferedBy(rules, puzzle, state, c)
  {
    if state.revision == puzzle.revision && UniqueIdentities(rules) {
      hide RuleOrder, CanonicalOrder, Honest, Offered, Gather, UniqueIds;
      var ordered := Sort(rules, RuleOrder());
      SortKeeps(rules, RuleOrder());
      SortedStayUnique(rules, ordered);
      GatheredExactly(ordered, puzzle, state);
      SamePlaces(rules, ordered, puzzle, state);
      SamePlaces(ordered, rules, puzzle, state);
      if Gather(ordered, puzzle, state).Ok? {
        GatheredApart(ordered, puzzle, state);
        SortKeeps(Gather(ordered, puzzle, state).value, CanonicalOrder());
      }
    }
  }

  lemma {:induction false} SortedStayUnique(rules: seq<Rule>, ordered: seq<Rule>)
    requires UniqueIdentities(rules) && multiset(rules) == multiset(ordered)
    ensures UniqueIdentities(ordered)
  {
    forall i, j | 0 <= i < j < |ordered| ensures Identity(ordered[i]) != Identity(ordered[j]) {
      if ordered[i] == ordered[j] {
        TwiceInMultiset(ordered, i, j);
        OnceInMultiset(rules, ordered[i]);
        assert false;
      }
      var x, y := ordered[i], ordered[j];
      assert x in multiset(ordered) && y in multiset(ordered);
      assert x in rules && y in rules;
      var k :| 0 <= k < |rules| && rules[k] == x;
      var l :| 0 <= l < |rules| && rules[l] == y;
      assert k < l || l < k;
    }
  }

  lemma {:induction false} TwiceInMultiset(s: seq<Rule>, i: nat, j: nat)
    requires i < j < |s| && s[i] == s[j]
    ensures multiset(s)[s[i]] >= 2
  {
    assert s == s[..j] + s[j..];
    assert s[..j][i] == s[i] && s[j..][0] == s[i];
  }

  lemma {:induction false} OnceInMultiset(rules: seq<Rule>, x: Rule)
    requires UniqueIdentities(rules)
    ensures multiset(rules)[x] <= 1
  {
    if rules != [] {
      var n := |rules| - 1;
      OnceInMultiset(rules[..n], x);
      assert rules == rules[..n] + [rules[n]];
      if rules[n] == x {
        assert forall i :: 0 <= i < n ==> rules[..n][i] != x;
        assert x !in rules[..n];
      }
    }
  }

  lemma {:induction false} SamePlaces(rules: seq<Rule>, others: seq<Rule>, puzzle: Puzzle, state: PuzzleState)
    requires forall rule :: rule in rules ==> rule in others
    ensures OfferedApart(others, puzzle, state) ==> OfferedApart(rules, puzzle, state)
    ensures forall c :: OfferedBy(rules, puzzle, state, c) ==> OfferedBy(others, puzzle, state, c)
    ensures (forall i :: 0 <= i < |others| ==> Honest(others[i], puzzle, state)) ==>
      forall i :: 0 <= i < |rules| ==> Honest(rules[i], puzzle, state)
  {
    hide Offered, Honest;
    forall i | 0 <= i < |rules| ensures exists j :: 0 <= j < |others| && others[j] == rules[i] {
      var rule := rules[i];
      assert rule in others;
    }
  }

  lemma {:induction false} GatheredExactly(rules: seq<Rule>, puzzle: Puzzle, state: PuzzleState)
    ensures Gather(rules, puzzle, state).Ok? <==> forall i :: 0 <= i < |rules| ==> Honest(rules[i], puzzle, state)
    ensures Gather(rules, puzzle, state).Ok? ==>
      forall c :: c in Gather(rules, puzzle, state).value <==> OfferedBy(rules, puzzle, state, c)
  {
    if rules != [] {
      hide Checked, Honest, Offered;
      var rest := rules[1..];
      GatheredExactly(rest, puzzle, state);
      CheckedExactly(rules[0], puzzle, state);
      assert forall i :: 0 <= i < |rest| ==> rest[i] == rules[i + 1];
      if Gather(rules, puzzle, state).Ok? {
        forall c
          ensures OfferedBy(rules, puzzle, state, c)
            <==> (exists k: nat :: Offered(rules[0], puzzle, state, k, c)) || OfferedBy(rest, puzzle, state, c)
        {
          if i, k: nat :| 0 <= i < |rules| && Offered(rules[i], puzzle, state, k, c) {
            assert i == 0 || Offered(rest[i - 1], puzzle, state, k, c);
          }
          if i, k: nat :| 0 <= i < |rest| && Offered(rest[i], puzzle, state, k, c) {
            assert Offered(rules[i + 1], puzzle, state, k, c);
          }
        }
        var first := Checked(rules[0], puzzle, state).value;
        forall c ensures c in first <==> exists k: nat :: Offered(rules[0], puzzle, state, k, c) {
          if c in first {
            var k :| 0 <= k < |first| && first[k] == c;
            assert Offered(rules[0], puzzle, state, k, c);
          }
        }
      }
    }
  }

  lemma {:induction false} CheckedExactly(rule: Rule, puzzle: Puzzle, state: PuzzleState)
    ensures var r := Checked(rule, puzzle, state);
      && (r.Ok? <==> Honest(rule, puzzle, state))
      && (r.Ok? ==> forall k: nat, c :: Offered(rule, puzzle, state, k, c) <==> k < |r.value| && r.value[k] == c)
  {
  }

  lemma {:induction false} GatheredApart(rules: seq<Rule>, puzzle: Puzzle, state: PuzzleState)
    requires UniqueIdentities(rules) && Gather(rules, puzzle, state).Ok?
    ensures UniqueIds(Gather(rules, puzzle, state).value) <==> OfferedApart(rules, puzzle, state)
  {
    if rules != [] {
      hide Checked, Offered;
      var first, rest := Checked(rules[0], puzzle, state).value, Gather(rules[1..], puzzle, state).value;
      CheckedExactly(rules[0], puzzle, state);
      GatheredExactly(rules[1..], puzzle, state);
      GatheredApart(rules[1..], puzzle, state);
      JoinedUnique(first, rest);
      if UniqueIds(first + rest) {
        JoinedOffers(rules, puzzle, state, first, rest);
      }
      if OfferedApart(rules, puzzle, state) {
        OffersSplit(rules, puzzle, state, first, rest);
      }
    }
  }

  lemma {:induction false} JoinedUnique(first: seq<Candidate>, rest: seq<Candidate>)
    ensures UniqueIds(first + rest) <==>
      UniqueIds(first) && UniqueIds(rest) && forall c, d :: c in first && d in rest ==> c.id != d.id
  {
    var both := first + rest;
    assert forall i :: 0 <= i < |first| ==> both[i] == first[i];
    assert forall i :: 0 <= i < |rest| ==> both[|first| + i] == rest[i];
    if UniqueIds(both) {
      forall c, d | c in first && d in rest ensures c.id != d.id {
        var i :| 0 <= i < |first| && first[i] == c;
        var j :| 0 <= j < |rest| && rest[j] == d;
        assert both[i].id != both[|first| + j].id;
      }
      forall i, j | 0 <= i < j < |rest| ensures rest[i].id != rest[j].id {
        assert both[|first| + i].id != both[|first| + j].id;
      }
    }
  }

  lemma {:induction false} JoinedOffers(rules: seq<Rule>, puzzle: Puzzle, state: PuzzleState, first: seq<Candidate>,
      rest: seq<Candidate>)
    requires rules != [] && UniqueIds(first) && OfferedApart(rules[1..], puzzle, state)
    requires forall c, d :: c in first && d in rest ==> c.id != d.id
    requires forall k: nat, c :: Offered(rules[0], puzzle, state, k, c) <==> k < |first| && first[k] == c
    requires forall c :: OfferedBy(rules[1..], puzzle, state, c) ==> c in rest
    ensures OfferedApart(rules, puzzle, state)
  {
    hide Offered;
    forall i, j, k: nat, l: nat, c, d | 0 <= i < |rules| && 0 <= j < |rules| && Offered(rules[i], puzzle, state, k, c)
      && Offered(rules[j], puzzle, state, l, d) && c.id == d.id
      ensures Identity(rules[i]) == Identity(rules[j]) && k == l
    {
      assert i > 0 ==> Offered(rules[1..][i - 1], puzzle, state, k, c) && c in rest;
      assert j > 0 ==> Offered(rules[1..][j - 1], puzzle, state, l, d) && d in rest;
      assert i == 0 ==> c in first;
      assert j == 0 ==> d in first;
    }
  }

  lemma {:induction false} OffersSplit(rules: seq<Rule>, puzzle: Puzzle, state: PuzzleState, first: seq<Candidate>,
      rest: seq<Candidate>)
    requires rules != [] && UniqueIdentities(rules) && OfferedApart(rules, puzzle, state)
    requires forall k: nat, c :: Offered(rules[0], puzzle, state, k, c) <==> k < |first| && first[k] == c
    requires forall c :: c in rest <==> OfferedBy(rules[1..], puzzle, state, c)
    ensures UniqueIds(first) && OfferedApart(rules[1..], puzzle, state)
    ensures forall c, d :: c in first && d in rest ==> c.id != d.id
  {
    hide Offered;
    var others := rules[1..];
    assert forall i :: 0 <= i < |others| ==> others[i] == rules[i + 1];
    forall i, j | 0 <= i < j < |first| ensures first[i].id != first[j].id {
      assert Offered(rules[0], puzzle, state, i, first[i]) && Offered(rules[0], puzzle, state, j, first[j]);
    }
    forall c, d | c in first && d in rest ensures c.id != d.id {
      var k: nat :| k < |first| && first[k] == c;
      var i, l: nat :| 0 <= i < |others| && Offered(others[i], puzzle, state, l, d);
      assert Offered(rules[0], puzzle, state, k, c) && Offered(rules[i + 1], puzzle, state, l, d);
      assert Identity(rules[0]) != Identity(rules[i + 1]);
    }
    forall i, j, k: nat, l: nat, c, d | 0 <= i < |others| && 0 <= j < |others| && Offered(others[i], puzzle, state, k, c)
      && Offered(others[j], puzzle, state, l, d) && c.id == d.id
      ensures Identity(others[i]) == Identity(others[j]) && k == l
    {
      assert Offered(rules[i + 1], puzzle, state, k, c) && Offered(rules[j + 1], puzzle, state, l, d);
    }
  }
}

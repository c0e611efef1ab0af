/** The lifecycle facts of a stored attempt, normalized into a projection stream. */
module Normalization {
  import opened Prelude
  import opened Sorting
  import opened Projections
  import Play

  datatype Verdict = Supported | Contradicted | Inconclusive | Quarantined
  datatype Evaluation = Evaluation(digest: Identifier, verdict: Verdict, rule: Option<RuleId>)

  /** `explains`: the disclosure level reaches the explanation. */
  datatype Hint = Hint(explains: bool, disclosed: Option<RuleId>, evidence: RuleId)

  /** A hint request is available exactly when its result carries a hint. */
  datatype HintOutcome = HintOutcome(digest: Identifier, hint: Option<Hint>)

  datatype Observed<T> = Observed(content: T, time: int)

  datatype Record = Record(
    attempt: AttemptId, user: UserId, revision: Identifier, started: int,
    observations: seq<Observed<Play.PlayEvent>>, evaluations: seq<Observed<Evaluation>>, hints: seq<Observed<HintOutcome>>)

  // ----- what counts -----

  predicate Completes(e: Play.PlayEvent) {
    e.body.accepted && e.body.code == Play.CompletionAccepted && e.body.action == Play.CheckCompletion
  }

  /** The first completing observation. */
  function Completion(observations: seq<Observed<Play.PlayEvent>>): Option<Observed<Play.PlayEvent>> {
    if observations == [] then None
    else if Completes(observations[0].content) then Some(observations[0])
    else Completion(observations[1..])
  }

  predicate Before(time: int, completion: Option<Observed<Play.PlayEvent>>) {
    completion.None? || time < completion.value.time
  }

  datatype Content = Move(evaluation: Evaluation) | Help(digest: Identifier, hint: Hint) {
    function Digest(): Identifier {
      if Move? then evaluation.digest else digest
    }

    function Source(): Source {
      if Move? then EvaluationSource(evaluation.digest) else HintSource(digest)
    }
  }

  predicate Decided(e: Evaluation) {
    e.verdict.Supported? || e.verdict.Contradicted?
  }

  function EligibleMoves(items: seq<Observed<Evaluation>>,
      completion: Option<Observed<Play.PlayEvent>>): seq<Observed<Content>> {
    if items == [] then []
    else
      var rest := EligibleMoves(items[1..], completion);
      var item := items[0];
      if Decided(item.content) && Before(item.time, completion) then [Observed(Move(item.content), item.time)] + rest else rest
  }

  function EligibleHints(items: seq<Observed<HintOutcome>>,
      completion: Option<Observed<Play.PlayEvent>>): seq<Observed<Content>> {
    if items == [] then []
    else
      var rest := EligibleHints(items[1..], completion);
      var item := items[0];
      if item.content.hint.Some? && Before(item.time, completion)
      then [Observed(Help(item.content.digest, item.content.hint.value), item.time)] + rest
      else rest
  }

  function Combined(record: Record): seq<Observed<Content>> {
    var completion := Completion(record.observations);
    EligibleMoves(record.evaluations, completion) + EligibleHints(record.hints, completion)
  }

  function ByTime(): Observed<Content> -> Key {
    (o: Observed<Content>) => [o.time, o.content.Digest()]
  }

  // ----- facts -----

  datatype Fact = Fact(source: Source, payload: Payload, time: int)

  function PayloadOf(attempt: AttemptId, c: Content): Payload {
    match c
    case Move(e) => MoveEvaluated(attempt, e.verdict.Supported?, e.rule)
    case Help(_, h) => if h.explains then StepExplained(attempt, h.evidence) else HintRevealed(attempt, h.disclosed)
  }

  predicate KnownSource(facts: seq<Fact>, source: Source) {
    exists f :: f in facts && f.source == source
  }

  /** One fact for each distinct content, at its first time. */
  function Novel(attempt: AttemptId, ordered: seq<Observed<Content>>): seq<Fact> {
    if ordered == [] then []
    else
      var n := |ordered| - 1;
      var earlier := Novel(attempt, ordered[..n]);
      var o := ordered[n];
      if KnownSource(earlier, o.content.Source()) then earlier
      else earlier + [Fact(o.content.Source(), PayloadOf(attempt, o.content), o.time)]
  }

  function Opening(record: Record): Fact {
    Fact(AttemptStart, AttemptStarted(record.attempt, record.user, record.revision), record.started)
  }

  function Closing(record: Record): seq<Fact> {
    var completion := Completion(record.observations);
    if completion.None? then []
    else [Fact(CompletionSource(completion.value.content.hash), AttemptCompleted(record.attempt), completion.value.time)]
  }

  function Facts(record: Record): seq<Fact> {
    [Opening(record)] + Novel(record.attempt, Sort(Combined(record), ByTime())) + Closing(record)
  }

  // ----- sealing -----

  function SealAfter(attempt: AttemptId, earlier: seq<Event>, f: Fact): Event {
    var previous := if earlier == [] then ProjectionGenesis else earlier[|earlier| - 1].hash;
    var body := Body(FactOf(attempt, f.source), StreamOfAttempt(attempt), |earlier|, f.time, previous, f.payload);
    Event(body, OfBody(body))
  }

  function Sealed(attempt: AttemptId, facts: seq<Fact>): (r: seq<Event>)
    ensures |r| == |facts|
  {
    if facts == [] then []
    else
      var earlier := Sealed(attempt, facts[..|facts| - 1]);
      earlier + [SealAfter(attempt, earlier, facts[|facts| - 1])]
  }

  function Normalized(record: Record): seq<Event> {
    Sealed(record.attempt, Facts(record))
  }

  lemma {:induction false} SealedExtends(attempt: AttemptId, facts: seq<Fact>, f: Fact)
    ensures Sealed(attempt, facts + [f]) == Sealed(attempt, facts) + [SealAfter(attempt, Sealed(attempt, facts), f)]
  {
    assert (facts + [f])[..|facts|] == facts;
  }

  lemma {:induction false} NovelExtends(attempt: AttemptId, ordered: seq<Observed<Content>>, i: nat)
    requires i < |ordered|
    ensures var earlier := Novel(attempt, ordered[..i]); var o := ordered[i];
      Novel(attempt, ordered[..i + 1]) ==
      if KnownSource(earlier, o.content.Source()) then earlier
      else earlier + [Fact(o.content.Source(), PayloadOf(attempt, o.content), o.time)]
  {
    assert ordered[..i + 1][..i] == ordered[..i];
  }

  /** `build_attempt_projection_events` */
  method BuildAttemptEvents(record: Record) returns (events: seq<Event>)
    ensures events == Normalized(record)
  {
    hide Sort, Combined, Novel, Completion, Sealed, KnownSource;
    var attempt := record.attempt;
    var ordered := Sort(Combined(record), ByTime());
    var seenEvaluations, seenHints: set<Identifier> := {}, {};
    ghost var facts := [Opening(record)];
    events := [SealAfter(attempt, [], Opening(record))];
    Unopened(attempt, ordered, Opening(record));
    for i := 0 to |ordered|
      invariant facts == [Opening(record)] + Novel(attempt, ordered[..i])
      invariant events == Sealed(attempt, facts) && events != []
      invariant forall d :: d in seenEvaluations <==> KnownSource(Novel(attempt, ordered[..i]), EvaluationSource(d))
      invariant forall d :: d in seenHints <==> KnownSource(Novel(attempt, ordered[..i]), HintSource(d))
    {
      var o := ordered[i];
      var f := Fact(o.content.Source(), PayloadOf(attempt, o.content), o.time);
      NovelExtends(attempt, ordered, i);
      KnownExtends(Novel(attempt, ordered[..i]), f);
      SealedExtends(attempt, facts, f);
      var digest := o.content.Digest();
      if digest !in (if o.content.Move? then seenEvaluations else seenHints) {
        if o.content.Move? {
          seenEvaluations := seenEvaluations + {digest};
        } else {
          seenHints := seenHints + {digest};
        }
        facts := facts + [f];
        events := events + [SealAfter(attempt, events, f)];
      }
      assert facts == [Opening(record)] + Novel(attempt, ordered[..i + 1]);
    }
    assert ordered[..|ordered|] == ordered;
    var completion := Completion(record.observations);
    if completion.Some? {
      var f := Fact(CompletionSource(completion.value.content.hash), AttemptCompleted(attempt), completion.value.time);
      SealedExtends(attempt, facts, f);
      events := events + [SealAfter(attempt, events, f)];
      assert Facts(record) == facts + [f];
    } else {
      assert Facts(record) == facts;
    }
  }

  lemma {:induction false} Unopened(attempt: AttemptId, ordered: seq<Observed<Content>>, f: Fact)
    ensures Novel(attempt, ordered[..0]) == [] && Sealed(attempt, [f]) == [SealAfter(attempt, [], f)]
    ensures forall s :: !KnownSource([], s)
  {
    SealedExtends(attempt, [], f);
    assert [] + [f] == [f];
  }

  lemma {:induction false} KnownExtends(facts: seq<Fact>, f: Fact)
    ensures forall s :: KnownSource(facts + [f], s) <==> KnownSource(facts, s) || s == f.source
  {
    forall s ensures KnownSource(facts + [f], s) <==> KnownSource(facts, s) || s == f.source {
      assert f in facts + [f];
      if KnownSource(facts, s) {
        var g :| g in facts && g.source == s;
        assert g in facts + [f];
      }
    }
  }
}

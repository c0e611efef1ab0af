/** Which facts a normalized attempt consists of, read off the stored record. */
module NormalizationContents {
  import opened Prelude
  import opened Sorting
  import opened Projections
  import opened Normalization
  import opened NormalizationTheorems
  import Play

  // ----- the completion -----

  /** An accepted completion check. */
  predicate Finishes(e: Play.PlayEvent) {
    e.body.accepted && e.body.action == Play.CheckCompletion && e.body.code == Play.CompletionAccepted
  }

  /** The first observation of an accepted completion check. */
  ghost predicate FirstFinished(observations: seq<Observed<Play.PlayEvent>>, o: Observed<Play.PlayEvent>) {
    exists i :: 0 <= i < |observations| && observations[i] == o && Finishes(o.content)
      && forall j :: 0 <= j < i ==> !Finishes(observations[j].content)
  }

  lemma {:induction false} CompletionExactly(observations: seq<Observed<Play.PlayEvent>>)
    ensures forall o :: Completion(observations) == Some(o) <==> FirstFinished(observations, o)
    ensures Completion(observations).None? <==> forall i :: 0 <= i < |observations| ==> !Finishes(observations[i].content)
  {
    if observations != [] && !Finishes(observations[0].content) {
      var rest := observations[1..];
      CompletionExactly(rest);
      forall o ensures FirstFinished(observations, o) <==> FirstFinished(rest, o) {
        FirstFinishedLater(observations, o);
      }
      forall i | 0 < i < |observations| ensures observations[i] == rest[i - 1] {
      }
    } else if observations != [] {
      assert FirstFinished(observations, observations[0]);
    }
  }

  lemma {:induction false} FirstFinishedLater(observations: seq<Observed<Play.PlayEvent>>, o: Observed<Play.PlayEvent>)
    requires observations != [] && !Finishes(observations[0].content)
    ensures FirstFinished(observations, o) <==> FirstFinished(observations[1..], o)
  {
    hide Finishes;
    var rest := observations[1..];
    if FirstFinished(observations, o) {
      var i :| 0 <= i < |observations| && observations[i] == o && Finishes(o.content)
        && forall j :: 0 <= j < i ==> !Finishes(observations[j].content);
      assert rest[i - 1] == o;
      forall j | 0 <= j < i - 1 ensures !Finishes(rest[j].content) {
        assert rest[j] == observations[j + 1];
      }
    }
    if FirstFinished(rest, o) {
      var i :| 0 <= i < |rest| && rest[i] == o && Finishes(o.content) && forall j :: 0 <= j < i ==> !Finishes(rest[j].content);
      assert observations[i + 1] == o;
      forall j | 0 <= j < i + 1 ensures !Finishes(observations[j].content) {
        assert j > 0 ==> observations[j] == rest[j - 1];
      }
    }
  }

  // ----- what counts -----

  /** Something observed strictly before the attempt was completed, if it was. */
  ghost predicate InTime(record: Record, time: int) {
    forall o :: FirstFinished(record.observations, o) ==> time < o.time
  }

  /** A decided evaluation, or an available hint, observed in time, as the fact it becomes. */
  ghost predicate Noted(record: Record, source: Source, payload: Payload, time: int) {
    InTime(record, time)
    && ((exists o :: o in record.evaluations && NotedMove(record, o, source, payload, time))
        || (exists o :: o in record.hints && NotedHint(record, o, source, payload, time)))
  }

  predicate NotedMove(record: Record, o: Observed<Evaluation>, source: Source, payload: Payload, time: int) {
    && time == o.time && (o.content.verdict.Supported? || o.content.verdict.Contradicted?)
    && source == EvaluationSource(o.content.digest)
    && payload == MoveEvaluated(record.attempt, o.content.verdict.Supported?, o.content.rule)
  }

  predicate NotedHint(record: Record, o: Observed<HintOutcome>, source: Source, payload: Payload, time: int) {
    && time == o.time && o.content.hint.Some? && source == HintSource(o.content.digest)
    && payload == if o.content.hint.value.explains then StepExplained(record.attempt, o.content.hint.value.evidence)
                  else HintRevealed(record.attempt, o.content.hint.value.disclosed)
  }

  lemma {:induction false} BeforeExactly(record: Record, time: int)
    ensures Before(time, Completion(record.observations)) <==> InTime(record, time)
  {
    hide FirstFinished, Completion;
    CompletionExactly(record.observations);
  }

  lemma {:induction false} MoveCombines(record: Record, o: Observed<Evaluation>, source: Source, payload: Payload,
      time: int)
    requires o in record.evaluations && NotedMove(record, o, source, payload, time) && InTime(record, time)
    ensures var c := Observed(Move(o.content), o.time); c in Combined(record) && Becomes(record, c, source, payload, time)
  {
    hide InTime, Completion, Combined, Before;
    BeforeExactly(record, time);
    CombinedMembers(record, Observed(Move(o.content), o.time));
  }

  lemma {:induction false} HintCombines(record: Record, o: Observed<HintOutcome>, source: Source, payload: Payload,
      time: int)
    requires o in record.hints && NotedHint(record, o, source, payload, time) && InTime(record, time)
    ensures var c := Observed(Help(o.content.digest, o.content.hint.value), o.time);
      c in Combined(record) && Becomes(record, c, source, payload, time)
  {
    hide InTime, Completion, Combined, Before;
    BeforeExactly(record, time);
    assert o == Observed(HintOutcome(o.content.digest, Some(o.content.hint.value)), o.time);
    CombinedMembers(record, Observed(Help(o.content.digest, o.content.hint.value), o.time));
  }

  lemma {:induction false} CombinedIsNoted(record: Record, c: Observed<Content>, source: Source, payload: Payload,
      time: int)
    requires c in Combined(record) && Becomes(record, c, source, payload, time)
    ensures Noted(record, source, payload, time)
  {
    hide InTime, Completion, Combined, Before;
    BeforeExactly(record, time);
    CombinedMembers(record, c);
    if c.content.Move? {
      assert NotedMove(record, Observed(c.content.evaluation, c.time), source, payload, time);
    } else {
      assert NotedHint(record, Observed(HintOutcome(c.content.digest, Some(c.content.hint)), c.time), source, payload, time);
    }
  }

  lemma {:induction false} NotedExactly(record: Record, source: Source, payload: Payload, time: int)
    ensures Noted(record, source, payload, time) <==> exists o :: o in Combined(record) && Becomes(record, o, source, payload, time)
  {
    hide InTime, Combined, Becomes, NotedMove, NotedHint;
    if c :| c in Combined(record) && Becomes(record, c, source, payload, time) {
      CombinedIsNoted(record, c, source, payload, time);
    }
    if Noted(record, source, payload, time) {
      if o :| o in record.evaluations && NotedMove(record, o, source, payload, time) {
        MoveCombines(record, o, source, payload, time);
      } else {
        var o :| o in record.hints && NotedHint(record, o, source, payload, time);
        HintCombines(record, o, source, payload, time);
      }
    }
  }

  /** What the observation is normalized to. */
  predicate Becomes(record: Record, o: Observed<Content>, source: Source, payload: Payload, time: int) {
    o.content.Source() == source && PayloadOf(record.attempt, o.content) == payload && o.time == time
  }

  // ----- one fact for each content -----

  function DigestOf(source: Source): Identifier {
    match source
    case EvaluationSource(d) => d
    case HintSource(d) => d
    case _ => 0
  }

  /** Earlier, or at the same time with a smaller or equal digest. */
  predicate NoLater(time: int, digest: Identifier, otherTime: int, otherDigest: Identifier) {
    time < otherTime || (time == otherTime && digest <= otherDigest)
  }

  predicate InOrder(ordered: seq<Observed<Content>>) {
    forall i, j :: 0 <= i < j < |ordered| ==>
      NoLater(ordered[i].time, ordered[i].content.Digest(), ordered[j].time, ordered[j].content.Digest())
  }

  lemma {:induction false} SortedInOrder(all: seq<Observed<Content>>)
    ensures InOrder(Sort(all, ByTime()))
  {
    hide Sort;
    var ordered := Sort(all, ByTime());
    SortKeeps(all, ByTime());
    forall i, j | 0 <= i < j < |ordered|
      ensures NoLater(ordered[i].time, ordered[i].content.Digest(), ordered[j].time, ordered[j].content.Digest())
    {
      OrderedIsSorted(ordered, ByTime(), i, j);
      TimesCompare(ordered[i], ordered[j]);
    }
  }

  lemma {:induction false} TimesCompare(o: Observed<Content>, p: Observed<Content>)
    requires LexLeq(ByTime()(o), ByTime()(p))
    ensures NoLater(o.time, o.content.Digest(), p.time, p.content.Digest())
  {
    var s, t := ByTime()(o), ByTime()(p);
    assert s[1..][0] == o.content.Digest() && t[1..][0] == p.content.Digest();
  }

  /** The fact of the first listed observation of its content. */
  ghost predicate FirstOf(attempt: AttemptId, ordered: seq<Observed<Content>>, f: Fact) {
    exists i :: 0 <= i < |ordered| && f == Fact(ordered[i].content.Source(), PayloadOf(attempt, ordered[i].content), ordered[i].time)
      && forall j :: 0 <= j < i ==> ordered[j].content.Source() != f.source
  }

  lemma {:induction false} NovelAreFirsts(attempt: AttemptId, ordered: seq<Observed<Content>>)
    requires InOrder(ordered)
    ensures var facts := Novel(attempt, ordered);
      && (forall k :: 0 <= k < |facts| ==> FirstOf(attempt, ordered, facts[k]))
      && (forall k, l :: 0 <= k < l < |facts| ==>
            NoLater(facts[k].time, DigestOf(facts[k].source), facts[l].time, DigestOf(facts[l].source)))
  {
    hide PayloadOf, KnownSource;
    if ordered != [] {
      var n := |ordered| - 1;
      var before, o := ordered[..n], ordered[n];
      assert InOrder(before);
      NovelAreFirsts(attempt, before);
      NovelSources(attempt, before);
      var earlier, facts := Novel(attempt, before), Novel(attempt, ordered);
      forall k | 0 <= k < |earlier|
        ensures FirstOf(attempt, ordered, earlier[k])
        ensures NoLater(earlier[k].time, DigestOf(earlier[k].source), o.time, o.content.Digest())
      {
        FirstStays(attempt, ordered, earlier[k]);
      }
      if !KnownSource(earlier, o.content.Source()) {
        var f := Fact(o.content.Source(), PayloadOf(attempt, o.content), o.time);
        forall j | 0 <= j < n ensures ordered[j].content.Source() != f.source {
          assert ordered[j] in before;
        }
        assert FirstOf(attempt, ordered, f);
      }
    }
  }

  lemma {:induction false} FirstStays(attempt: AttemptId, ordered: seq<Observed<Content>>, f: Fact)
    requires ordered != [] && InOrder(ordered) && FirstOf(attempt, ordered[..|ordered| - 1], f)
    ensures FirstOf(attempt, ordered, f)
    ensures var o := ordered[|ordered| - 1]; NoLater(f.time, DigestOf(f.source), o.time, o.content.Digest())
  {
    hide PayloadOf;
    var n := |ordered| - 1;
    var before := ordered[..n];
    var i :| 0 <= i < n && f == Fact(before[i].content.Source(), PayloadOf(attempt, before[i].content), before[i].time)
      && forall j :: 0 <= j < i ==> before[j].content.Source() != f.source;
    assert ordered[i] == before[i];
    forall j | 0 <= j < i ensures ordered[j].content.Source() != f.source {
      assert before[j] == ordered[j];
    }
    assert DigestOf(f.source) == ordered[i].content.Digest();
  }

  lemma {:induction false} FirstIsEarliest(record: Record, f: Fact)
    requires FirstOf(record.attempt, Sort(Combined(record), ByTime()), f)
    ensures Noted(record, f.source, f.payload, f.time)
    ensures forall payload, time :: Noted(record, f.source, payload, time) ==> f.time <= time
  {
    hide Sort, Combined, PayloadOf, Noted;
    var ordered := Sort(Combined(record), ByTime());
    SortKeeps(Combined(record), ByTime());
    SortedInOrder(Combined(record));
    var i :| 0 <= i < |ordered|
      && f == Fact(ordered[i].content.Source(), PayloadOf(record.attempt, ordered[i].content), ordered[i].time)
      && forall j :: 0 <= j < i ==> ordered[j].content.Source() != f.source;
    assert ordered[i] in ordered && Becomes(record, ordered[i], f.source, f.payload, f.time);
    NotedExactly(record, f.source, f.payload, f.time);
    forall payload, time | Noted(record, f.source, payload, time) ensures f.time <= time {
      NotedExactly(record, f.source, payload, time);
      var o :| o in Combined(record) && Becomes(record, o, f.source, payload, time);
      var j :| 0 <= j < |ordered| && ordered[j] == o;
    }
  }

  // ----- the whole stream -----

  /** How many facts lie between the start and the completion. */
  function Middle(record: Record): nat {
    |Novel(record.attempt, Sort(Combined(record), ByTime()))|
  }

  /** A normalized attempt is its start, one fact for each evaluation and each hint that counts, at the first time
      it was observed and in the order of time and digest, and its completion if one was observed. */
  lemma {:induction false} NormalizedExactly(record: Record)
    ensures var events, m := Normalized(record), Middle(record);
      && |events| == m + (if exists o :: FirstFinished(record.observations, o) then 2 else 1)
      && events[0].body.payload == AttemptStarted(record.attempt, record.user, record.revision)
      && events[0].body.context == record.started && events[0].body.id == FactOf(record.attempt, AttemptStart)
      && (forall o :: FirstFinished(record.observations, o) ==>
            && events[m + 1].body.payload == AttemptCompleted(record.attempt) && events[m + 1].body.context == o.time
            && events[m + 1].body.id == FactOf(record.attempt, CompletionSource(o.content.hash)))
      && (forall i :: 1 <= i <= m ==> MidwayShown(record, events[i]))
      && (forall i, j :: 1 <= i < j <= m ==> Follows(events[i], events[j]))
      && (forall source, payload, time :: Noted(record, source, payload, time) ==>
            exists i :: 1 <= i <= m && events[i].body.id == FactOf(record.attempt, source))
  {
    hide Sort, Combined, Novel, Completion, FirstFinished, Noted, MidwayShown, Follows, FirstOf;
    var ordered := Sort(Combined(record), ByTime());
    var middle, facts, events := Novel(record.attempt, ordered), Facts(record), Normalized(record);
    CompletionExactly(record.observations);
    CompletionFound(record);
    SortKeeps(Combined(record), ByTime());
    SortedInOrder(Combined(record));
    NovelAreFirsts(record.attempt, ordered);
    NovelSources(record.attempt, ordered);
    forall i | 0 <= i < |events|
      ensures events[i].body.payload == facts[i].payload && events[i].body.context == facts[i].time
      ensures events[i].body.id == FactOf(record.attempt, facts[i].source)
    {
      SealedAt(record.attempt, facts, i);
    }
    forall i | 1 <= i <= |middle| ensures MidwayShown(record, events[i]) {
      FirstIsEarliest(record, middle[i - 1]);
      ShownFact(record, events[i], middle[i - 1]);
    }
    forall i, j | 1 <= i < j <= |middle| ensures Follows(events[i], events[j]) {
      FollowsFact(record.attempt, events[i], middle[i - 1], events[j], middle[j - 1]);
    }
    forall source, payload, time | Noted(record, source, payload, time)
      ensures exists i :: 1 <= i <= |middle| && events[i].body.id == FactOf(record.attempt, source)
    {
      var k := NotedIsListed(record, source, payload, time);
      assert events[k + 1].body.id == FactOf(record.attempt, source);
    }
  }

  lemma {:induction false} NotedIsListed(record: Record, source: Source, payload: Payload, time: int) returns (k: nat)
    requires Noted(record, source, payload, time)
    ensures var middle := Novel(record.attempt, Sort(Combined(record), ByTime())); k < |middle| && middle[k].source == source
  {
    hide Sort, Combined, Novel, Noted;
    var ordered := Sort(Combined(record), ByTime());
    var middle := Novel(record.attempt, ordered);
    SortKeeps(Combined(record), ByTime());
    NovelSources(record.attempt, ordered);
    NotedExactly(record, source, payload, time);
    var o :| o in Combined(record) && Becomes(record, o, source, payload, time);
    assert o in ordered && o.content.Source() == source;
    assert KnownSource(middle, source);
    k :| 0 <= k < |middle| && middle[k].source == source;
  }

  lemma {:induction false} CompletionFound(record: Record)
    ensures Completion(record.observations).Some? <==> exists o :: FirstFinished(record.observations, o)
  {
    hide FirstFinished, Completion;
    CompletionExactly(record.observations);
    if Completion(record.observations).Some? {
      assert FirstFinished(record.observations, Completion(record.observations).value);
    }
  }

  /** The event is what its source becomes, at the first time that was observed. */
  ghost predicate MidwayShown(record: Record, e: Event) {
    && e.body.id.FactOf? && e.body.id.attempt == record.attempt
    && Noted(record, e.body.id.source, e.body.payload, e.body.context)
    && forall payload, time :: Noted(record, e.body.id.source, payload, time) ==> e.body.context <= time
  }

  predicate Follows(e: Event, later: Event) {
    && e.body.id.FactOf? && later.body.id.FactOf?
    && NoLater(e.body.context, DigestOf(e.body.id.source), later.body.context, DigestOf(later.body.id.source))
  }

  lemma {:induction false} ShownFact(record: Record, e: Event, f: Fact)
    requires e.body.payload == f.payload && e.body.context == f.time && e.body.id == FactOf(record.attempt, f.source)
    requires Noted(record, f.source, f.payload, f.time)
    requires forall payload, time :: Noted(record, f.source, payload, time) ==> f.time <= time
    ensures MidwayShown(record, e)
  {
    hide Noted;
  }

  lemma {:induction false} FollowsFact(attempt: AttemptId, e: Event, f: Fact, later: Event, g: Fact)
    requires e.body.context == f.time && e.body.id == FactOf(attempt, f.source)
    requires later.body.context == g.time && later.body.id == FactOf(attempt, g.source)
    requires NoLater(f.time, DigestOf(f.source), g.time, DigestOf(g.source))
    ensures Follows(e, later)
  {
  }
}

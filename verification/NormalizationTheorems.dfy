/** Normalized attempts are accepted by the rebuild, with totals that count distinct eligible observations. */
module NormalizationTheorems {
  import opened Prelude
  import opened Sorting
  import opened Projections
  import opened ProjectionTheorems
  import opened LearningTheorems
  import opened Normalization
  import Play
  import PlayRuns
  import LogicGrid

  // ----- the stream is a chain -----

  predicate SourcesDiffer(facts: seq<Fact>) {
    forall i, j :: 0 <= i < j < |facts| ==> facts[i].source != facts[j].source
  }

  lemma {:induction false} SealedPrefix(attempt: AttemptId, facts: seq<Fact>, i: nat)
    requires i <= |facts|
    ensures Sealed(attempt, facts)[..i] == Sealed(attempt, facts[..i])
    decreases |facts|
  {
    if i == |facts| {
      assert facts[..i] == facts;
    } else {
      var n := |facts| - 1;
      SealedPrefix(attempt, facts[..n], i);
      assert facts[..n][..i] == facts[..i];
      assert Sealed(attempt, facts)[..n] == Sealed(attempt, facts[..n]);
      assert Sealed(attempt, facts)[..n][..i] == Sealed(attempt, facts)[..i];
    }
  }

  lemma {:induction false} SealedAt(attempt: AttemptId, facts: seq<Fact>, i: nat)
    requires i < |facts|
    ensures Sealed(attempt, facts)[i] == SealAfter(attempt, Sealed(attempt, facts)[..i], facts[i])
  {
    hide SealAfter;
    SealedPrefix(attempt, facts, i);
    SealedPrefix(attempt, facts, i + 1);
    assert facts[..i + 1] == facts[..i] + [facts[i]];
    SealedExtends(attempt, facts[..i], facts[i]);
    assert Sealed(attempt, facts)[i] == Sealed(attempt, facts)[..i + 1][i];
  }

  lemma {:induction false} SealedIsChained(attempt: AttemptId, facts: seq<Fact>)
    requires SourcesDiffer(facts)
    requires forall f :: f in facts ==> f.payload.Kind() == AttemptStream
    ensures Chained(Sealed(attempt, facts)) && DistinctIds(Sealed(attempt, facts))
  {
    hide Sealed;
    var events := Sealed(attempt, facts);
    forall i | 0 <= i < |events| ensures events[i].body.id == FactOf(attempt, facts[i].source) && Linked(events, i) {
      SealedAt(attempt, facts, i);
      SealedAt(attempt, facts, 0);
      var f, g := facts[i], facts[0];
      assert f in facts && g in facts;
      forall j | 0 <= j < i ensures events[j].body.id != events[i].body.id {
        SealedAt(attempt, facts, j);
      }
      assert i > 0 ==> events[..i][|events[..i]| - 1] == events[i - 1];
    }
  }

  lemma {:induction false} NovelSources(attempt: AttemptId, ordered: seq<Observed<Content>>)
    ensures SourcesDiffer(Novel(attempt, ordered))
    ensures forall s :: KnownSource(Novel(attempt, ordered), s) <==> exists o :: o in ordered && o.content.Source() == s
    ensures forall f :: f in Novel(attempt, ordered) ==> Midway(attempt, f)
  {
    hide KnownSource, Midway;
    if ordered == [] {
      NothingKnown();
    } else {
      var n := |ordered| - 1;
      var o := ordered[n];
      var earlier := Novel(attempt, ordered[..n]);
      var f := Fact(o.content.Source(), PayloadOf(attempt, o.content), o.time);
      NovelSources(attempt, ordered[..n]);
      KnownExtends(earlier, f);
      FactIsMidway(attempt, o);
      assert ordered == ordered[..n] + [o];
      forall s ensures KnownSource(Novel(attempt, ordered), s) <==> exists p :: p in ordered && p.content.Source() == s {
        if KnownSource(Novel(attempt, ordered), s) && s != o.content.Source() {
          var p :| p in ordered[..n] && p.content.Source() == s;
          assert p in ordered;
        }
        if p :| p in ordered && p.content.Source() == s {
          assert p in ordered[..n] || p == o;
        }
      }
      if !KnownSource(earlier, f.source) {
        forall i | 0 <= i < |earlier| ensures earlier[i].source != f.source {
          KnownAt(earlier, i);
        }
      }
    }
  }

  lemma {:induction false} NothingKnown()
    ensures forall s :: !KnownSource([], s)
  {
  }

  lemma {:induction false} KnownAt(facts: seq<Fact>, i: nat)
    requires i < |facts|
    ensures KnownSource(facts, facts[i].source)
  {
    var f := facts[i];
    assert f in facts;
  }

  /** An evaluation or a hint of this attempt. */
  predicate Midway(attempt: AttemptId, f: Fact) {
    var p := f.payload;
    && (f.source.EvaluationSource? || f.source.HintSource?)
    && (p.MoveEvaluated? || p.HintRevealed? || p.StepExplained?) && p.attempt == attempt
  }

  lemma {:induction false} FactIsMidway(attempt: AttemptId, o: Observed<Content>)
    ensures Midway(attempt, Fact(o.content.Source(), PayloadOf(attempt, o.content), o.time))
  {
  }

  /** An event of the attempt's stream, about that attempt. */
  predicate Concerns(e: Event, attempt: AttemptId) {
    && e.body.stream == StreamOfAttempt(attempt) && e.body.id.FactOf? && e.body.id.attempt == attempt
    && e.Kind() == AttemptStream && e.body.payload.attempt == attempt
  }

  /** The stream has no gaps, its hashes are chained and no identifier repeats. */
  lemma {:induction false} NormalizedIsChained(record: Record)
    ensures Chained(Normalized(record)) && DistinctIds(Normalized(record))
    ensures forall e :: e in Normalized(record) ==> Concerns(e, record.attempt)
  {
    hide Novel, Sealed, Sort, Combined, Linked, Chained, DistinctIds;
    var ordered := Sort(Combined(record), ByTime());
    var middle := Novel(record.attempt, ordered);
    var facts := Facts(record);
    NovelSources(record.attempt, ordered);
    forall i, j | 0 <= i < j < |facts| ensures facts[i].source != facts[j].source {
      if 0 < i <= |middle| {
        var f := middle[i - 1];
        assert f in middle;
      }
      if 0 < j <= |middle| {
        var f := middle[j - 1];
        assert f in middle;
      }
    }
    forall f | f in facts ensures f.payload.Kind() == AttemptStream {
      assert f == Opening(record) || f in middle || f in Closing(record);
    }
    SealedIsChained(record.attempt, facts);
    var events := Normalized(record);
    forall e | e in events ensures Concerns(e, record.attempt) {
      var i :| 0 <= i < |events| && events[i] == e;
      SealedAt(record.attempt, facts, i);
      var f := facts[i];
      assert f in facts;
      assert f == Opening(record) || f in middle || f in Closing(record);
    }
  }

  // ----- the attempt it is rebuilt into -----

  predicate Tallied(p: Payload, kind: Evidence) {
    match kind
    case AcceptedMove => p.MoveEvaluated? && p.accepted
    case RejectedMove => p.MoveEvaluated? && !p.accepted
    case Hint => p.HintRevealed?
    case Explanation => p.StepExplained?
  }

  function HowManyTallied(facts: seq<Fact>, kind: Evidence): nat {
    if facts == [] then 0
    else HowManyTallied(facts[..|facts| - 1], kind) + (if Tallied(facts[|facts| - 1].payload, kind) then 1 else 0)
  }

  function AttemptTotal(a: Attempt, kind: Evidence): nat {
    match kind
    case AcceptedMove => a.accepted
    case RejectedMove => a.rejected
    case Hint => a.hints
    case Explanation => a.explanations
  }

  /** The attempt under way after some midway facts. */
  predicate Underway(record: Record, a: Attempt, facts: seq<Fact>) {
    && a.attempt == record.attempt && a.user == record.user && a.revision == record.revision
    && a.stream == StreamOfAttempt(record.attempt) && a.replays == 0 && a.assessment == None
    && forall kind: Evidence :: AttemptTotal(a, kind) == HowManyTallied(facts, kind)
  }

  lemma {:induction false} CountedExtends(events: seq<Event>, e: Event)
    requires Counted(events).Ok?
    ensures var r := Absorb(Counted(events).value, e);
      Counted(events + [e]) == if r.Err? then r else Ok(r.value.(sources := Counted(events).value.sources + [e.body.id], head := e.hash))
  {
    hide Absorb;
    assert (events + [e])[..|events|] == events;
  }

  lemma {:induction false} OpeningIsCounted(record: Record)
    ensures var r := Counted(Sealed(record.attempt, [Opening(record)]));
      r.Ok? && r.value.status == Status.Active && Underway(record, r.value, [])
  {
    var all := [Opening(record)];
    assert all[..0] == [];
  }

  lemma {:induction false} MiddleIsCounted(record: Record, facts: seq<Fact>)
    requires forall f :: f in facts ==> Midway(record.attempt, f)
    ensures var r := Counted(Sealed(record.attempt, [Opening(record)] + facts));
      r.Ok? && r.value.status == Status.Active && Underway(record, r.value, facts)
  {
    hide Counted, Absorb, Midway, Underway, SealAfter, Sealed;
    if facts == [] {
      OpeningIsCounted(record);
      assert [Opening(record)] + facts == [Opening(record)];
    } else {
      var n := |facts| - 1;
      var f := facts[n];
      assert facts == facts[..n] + [f];
      MiddleIsCounted(record, facts[..n]);
      var earlier := [Opening(record)] + facts[..n];
      assert [Opening(record)] + facts == earlier + [f];
      SealedExtends(record.attempt, earlier, f);
      var events := Sealed(record.attempt, earlier);
      var a := Counted(events).value;
      var e := SealAfter(record.attempt, events, f);
      CountedExtends(events, e);
      SealedPayload(record.attempt, events, f);
      AbsorbsMidway(record, a, facts[..n], f, e);
      SameUnderway(record, Absorb(a, e).value, facts, a.sources + [e.body.id], e.hash);
    }
  }

  lemma {:induction false} SealedPayload(attempt: AttemptId, earlier: seq<Event>, f: Fact)
    ensures SealAfter(attempt, earlier, f).body.payload == f.payload
  {
  }

  lemma {:induction false} SameUnderway(record: Record, a: Attempt, facts: seq<Fact>, sources: seq<EventId>,
      head: ProjectionDigest)
    requires Underway(record, a, facts)
    ensures Underway(record, a.(sources := sources, head := head), facts)
  {
    var b := a.(sources := sources, head := head);
    forall kind: Evidence ensures AttemptTotal(b, kind) == HowManyTallied(facts, kind) {
      assert AttemptTotal(a, kind) == HowManyTallied(facts, kind);
    }
  }

  lemma {:induction false} AbsorbsMidway(record: Record, a: Attempt, facts: seq<Fact>, f: Fact, e: Event)
    requires Midway(record.attempt, f) && e.body.payload == f.payload
    requires a.status == Status.Active && Underway(record, a, facts)
    ensures
      && Absorb(a, e).Ok?
      && Absorb(a, e).value.status == Status.Active
      && Underway(record, Absorb(a, e).value, facts + [f])
  {
    assert (facts + [f])[..|facts|] == facts;
    var next := Absorb(a, e).value;
    forall kind: Evidence ensures AttemptTotal(next, kind) == HowManyTallied(facts + [f], kind) {
      assert AttemptTotal(a, kind) == HowManyTallied(facts, kind);
    }
  }

  /** The distinct contents, by source, that an attempt's total of one kind is made of. */
  function Eligible(record: Record, kind: Evidence): set<Source> {
    var completion := Completion(record.observations);
    match kind
    case AcceptedMove =>
      set o | o in record.evaluations && o.content.verdict.Supported? && Before(o.time, completion) :: EvaluationSource(o.content.digest)
    case RejectedMove =>
      set o | o in record.evaluations && o.content.verdict.Contradicted? && Before(o.time, completion) :: EvaluationSource(o.content.digest)
    case Hint =>
      set o | o in record.hints && Gives(o.content, false) && Before(o.time, completion) :: HintSource(o.content.digest)
    case Explanation =>
      set o | o in record.hints && Gives(o.content, true) && Before(o.time, completion) :: HintSource(o.content.digest)
  }

  predicate Gives(outcome: HintOutcome, explains: bool) {
    outcome.hint.Some? && outcome.hint.value.explains == explains
  }

  /** A digest belongs to one content, as the validators that recompute it demand. */
  predicate Sealing(record: Record) {
    && (forall x, y :: x in record.evaluations && y in record.evaluations ==>
          x.content.digest == y.content.digest ==> x.content == y.content)
    && (forall x, y :: x in record.hints && y in record.hints ==>
          x.content.digest == y.content.digest ==> x.content == y.content)
  }

  function SourcesOf(ordered: seq<Observed<Content>>, attempt: AttemptId, kind: Evidence): set<Source> {
    set o | o in ordered && Tallied(PayloadOf(attempt, o.content), kind) :: o.content.Source()
  }

  predicate Coherent(ordered: seq<Observed<Content>>) {
    forall x, y :: x in ordered && y in ordered && x.content.Source() == y.content.Source() ==> x.content == y.content
  }

  lemma {:induction false} RepeatAddsNothing(init: seq<Observed<Content>>, o: Observed<Content>, attempt: AttemptId,
      kind: Evidence)
    requires Coherent(init + [o]) && exists p :: p in init && p.content.Source() == o.content.Source()
    ensures SourcesOf(init + [o], attempt, kind) == SourcesOf(init, attempt, kind)
  {
    hide Tallied, PayloadOf;
    SourcesExtend(init, o, attempt, kind);
    var p :| p in init && p.content.Source() == o.content.Source();
    assert p in init + [o] && o in init + [o];
    assert p.content == o.content;
    if Tallied(PayloadOf(attempt, o.content), kind) {
      assert o.content.Source() in SourcesOf(init, attempt, kind);
    }
  }

  lemma {:induction false} NewAddsOne(init: seq<Observed<Content>>, o: Observed<Content>, attempt: AttemptId,
      kind: Evidence)
    requires !exists p :: p in init && p.content.Source() == o.content.Source()
    ensures var more := if Tallied(PayloadOf(attempt, o.content), kind) then 1 else 0;
      |SourcesOf(init + [o], attempt, kind)| == |SourcesOf(init, attempt, kind)| + more
  {
    hide Tallied, PayloadOf;
    SourcesExtend(init, o, attempt, kind);
    assert o.content.Source() !in SourcesOf(init, attempt, kind);
  }

  lemma {:induction false} NovelTallies(attempt: AttemptId, ordered: seq<Observed<Content>>, kind: Evidence)
    requires Coherent(ordered)
    ensures HowManyTallied(Novel(attempt, ordered), kind) == |SourcesOf(ordered, attempt, kind)|
  {
    hide KnownSource, Tallied, PayloadOf, SourcesOf, SourcesDiffer, Midway;
    if ordered == [] {
      NoSources(attempt, kind);
    } else {
      var n := |ordered| - 1;
      var o := ordered[n];
      var init := ordered[..n];
      assert ordered == init + [o];
      NovelTallies(attempt, init, kind);
      NovelSources(attempt, init);
      var earlier := Novel(attempt, init);
      if KnownSource(earlier, o.content.Source()) {
        RepeatAddsNothing(init, o, attempt, kind);
      } else {
        NewAddsOne(init, o, attempt, kind);
        var f := Fact(o.content.Source(), PayloadOf(attempt, o.content), o.time);
        assert (earlier + [f])[..|earlier|] == earlier;
      }
    }
  }

  lemma {:induction false} NoSources(attempt: AttemptId, kind: Evidence)
    ensures SourcesOf([], attempt, kind) == {}
  {
  }

  lemma {:induction false} SourcesExtend(init: seq<Observed<Content>>, o: Observed<Content>, attempt: AttemptId,
      kind: Evidence)
    ensures var more := if Tallied(PayloadOf(attempt, o.content), kind) then {o.content.Source()} else {};
      SourcesOf(init + [o], attempt, kind) == SourcesOf(init, attempt, kind) + more
  {
    hide Tallied, PayloadOf;
    var all := init + [o];
    assert forall x :: x in all <==> x in init || x == o;
    assert o in all;
    var more := if Tallied(PayloadOf(attempt, o.content), kind) then {o.content.Source()} else {};
    forall s ensures s in SourcesOf(all, attempt, kind) <==> s in SourcesOf(init, attempt, kind) + more {
      if s in SourcesOf(all, attempt, kind) {
        var x :| x in all && Tallied(PayloadOf(attempt, x.content), kind) && x.content.Source() == s;
        assert x in init || x == o;
      }
      if s in SourcesOf(init, attempt, kind) {
        var x :| x in init && Tallied(PayloadOf(attempt, x.content), kind) && x.content.Source() == s;
        assert x in all;
      }
    }
  }

  lemma {:induction false} MoveMembers(items: seq<Observed<Evaluation>>, completion: Option<Observed<Play.PlayEvent>>)
    ensures forall o :: o in EligibleMoves(items, completion) <==>
      && o.content.Move? && Decided(o.content.evaluation) && Before(o.time, completion)
      && Observed(o.content.evaluation, o.time) in items
  {
    hide Decided, Before;
    if items != [] {
      MoveMembers(items[1..], completion);
      assert items == [items[0]] + items[1..];
    }
  }

  lemma {:induction false} HintMembers(items: seq<Observed<HintOutcome>>, completion: Option<Observed<Play.PlayEvent>>)
    ensures forall o :: o in EligibleHints(items, completion) <==>
      && o.content.Help? && Before(o.time, completion)
      && Observed(HintOutcome(o.content.digest, Some(o.content.hint)), o.time) in items
  {
    hide Before;
    if items != [] {
      HintMembers(items[1..], completion);
      assert items == [items[0]] + items[1..];
    }
  }

  /** What is sorted: the decided evaluations and available hints seen strictly before completion. */
  lemma {:induction false} CombinedMembers(record: Record, o: Observed<Content>)
    ensures o in Combined(record) <==>
      Before(o.time, Completion(record.observations)) &&
      if o.content.Move? then Decided(o.content.evaluation) && Observed(o.content.evaluation, o.time) in record.evaluations
      else Observed(HintOutcome(o.content.digest, Some(o.content.hint)), o.time) in record.hints
  {
    MoveMembers(record.evaluations, Completion(record.observations));
    HintMembers(record.hints, Completion(record.observations));
  }

  lemma {:induction false} CombinedIsCoherent(record: Record)
    requires Sealing(record)
    ensures Coherent(Sort(Combined(record), ByTime()))
  {
    hide Combined, Completion, Sort, Before, Decided;
    var all := Combined(record);
    SortKeeps(all, ByTime());
    forall x, y | x in all && y in all && x.content.Source() == y.content.Source() ensures x.content == y.content {
      CombinedMembers(record, x);
      CombinedMembers(record, y);
    }
  }

  lemma {:induction false} EligibleSources(record: Record, kind: Evidence)
    ensures SourcesOf(Sort(Combined(record), ByTime()), record.attempt, kind) == Eligible(record, kind)
  {
    hide Combined, Completion, Sort, Before;
    var ordered := Sort(Combined(record), ByTime());
    SortKeeps(Combined(record), ByTime());
    forall s | s in SourcesOf(ordered, record.attempt, kind) ensures s in Eligible(record, kind) {
      var o :| o in ordered && Tallied(PayloadOf(record.attempt, o.content), kind) && o.content.Source() == s;
      CombinedMembers(record, o);
    }
    forall s | s in Eligible(record, kind) ensures s in SourcesOf(ordered, record.attempt, kind) {
      var completion := Completion(record.observations);
      if kind.AcceptedMove? || kind.RejectedMove? {
        var item :|
          && item in record.evaluations && Decided(item.content) && Before(item.time, completion)
          && (item.content.verdict.Supported? <==> kind.AcceptedMove?) && EvaluationSource(item.content.digest) == s;
        var o := Observed(Move(item.content), item.time);
        CombinedMembers(record, o);
        assert o in ordered;
      } else {
        var item :|
          && item in record.hints && Gives(item.content, kind.Explanation?) && Before(item.time, completion)
          && HintSource(item.content.digest) == s;
        var o := Observed(Help(item.content.digest, item.content.hint.value), item.time);
        CombinedMembers(record, o);
        assert o in ordered;
      }
    }
  }

  /** Every normalized attempt is rebuilt; it is completed exactly when a completion was observed, and never abandoned. */
  lemma {:induction false} NormalizedIsRebuilt(record: Record)
    ensures var r := AttemptOf(Normalized(record));
      r.Ok? && r.value.attempt == record.attempt && r.value.user == record.user && r.value.revision == record.revision
      && r.value.stream == StreamOfAttempt(record.attempt)
      && r.value.status == if Completion(record.observations).Some? then Status.Completed else Status.Active
    ensures var novel := Novel(record.attempt, Sort(Combined(record), ByTime()));
      forall kind: Evidence :: AttemptTotal(AttemptOf(Normalized(record)).value, kind) == HowManyTallied(novel, kind)
  {
    hide Counted, Chained, Novel, Sort, Combined, Completion, Sealed, SealAfter, HowManyTallied;
    NormalizedIsChained(record);
    var ordered := Sort(Combined(record), ByTime());
    var middle := Novel(record.attempt, ordered);
    NovelSources(record.attempt, ordered);
    MiddleIsCounted(record, middle);
    var facts := [Opening(record)] + middle;
    var events := Sealed(record.attempt, facts);
    var a := Counted(events).value;
    if Completion(record.observations).Some? {
      var f := Closing(record)[0];
      assert Facts(record) == facts + [f];
      SealedExtends(record.attempt, facts, f);
      var e := SealAfter(record.attempt, events, f);
      SealedPayload(record.attempt, events, f);
      CountedExtends(events, e);
    } else {
      assert Facts(record) == facts;
    }
    forall kind: Evidence ensures AttemptTotal(AttemptOf(Normalized(record)).value, kind) == HowManyTallied(middle, kind) {
      assert AttemptTotal(a, kind) == HowManyTallied(middle, kind);
    }
  }

  /** The totals are the numbers of distinct eligible contents. */
  lemma {:induction false} NormalizedTotals(record: Record, kind: Evidence)
    requires Sealing(record)
    ensures AttemptOf(Normalized(record)).Ok?
    ensures AttemptTotal(AttemptOf(Normalized(record)).value, kind) == |Eligible(record, kind)|
  {
    hide Novel, Sort, Combined, Completion, Normalized, Eligible, SourcesOf, AttemptOf, HowManyTallied, AttemptTotal,
      Sealing;
    NormalizedIsRebuilt(record);
    CombinedIsCoherent(record);
    NovelTallies(record.attempt, Sort(Combined(record), ByTime()), kind);
    EligibleSources(record, kind);
  }

  // ----- memory of several attempts -----

  function Gathered(records: seq<Record>): seq<Event> {
    if records == [] then [] else Gathered(records[..|records| - 1]) + Normalized(records[|records| - 1])
  }

  predicate DifferentAttempts(records: seq<Record>) {
    forall i, j :: 0 <= i < j < |records| ==> records[i].attempt != records[j].attempt
  }

  lemma {:induction false} GatheredMembers(records: seq<Record>)
    ensures forall e :: e in Gathered(records) <==> exists r :: r in records && e in Normalized(r)
  {
    hide Normalized;
    if records != [] {
      var n := |records| - 1;
      GatheredMembers(records[..n]);
      assert records == records[..n] + [records[n]];
      forall e ensures e in Gathered(records) <==> exists r :: r in records && e in Normalized(r) {
        if e in Gathered(records[..n]) {
          var r :| r in records[..n] && e in Normalized(r);
          assert r in records;
        }
        if e in Normalized(records[n]) {
          assert records[n] in records;
        }
        if r :| r in records && e in Normalized(r) {
          assert r in records[..n] || r == records[n];
        }
      }
    }
  }

  lemma {:induction false} OfStreamConcat(a: seq<Event>, b: seq<Event>, t: StreamId)
    ensures OfStream(a + b, t) == OfStream(a, t) + OfStream(b, t)
  {
    if a == [] {
      assert a + b == b;
    } else {
      assert (a + b)[1..] == a[1..] + b;
      OfStreamConcat(a[1..], b, t);
    }
  }

  lemma {:induction false} OfOneStream(events: seq<Event>, u: StreamId, t: StreamId)
    requires forall e :: e in events ==> e.body.stream == u
    ensures OfStream(events, t) == if t == u then events else []
  {
    if events != [] {
      assert events[0] in events;
      OfOneStream(events[1..], u, t);
      assert events == [events[0]] + events[1..];
    }
  }

  lemma {:induction false} GatheredStream(records: seq<Record>, r: Record)
    requires DifferentAttempts(records) && r in records
    ensures OfStream(Gathered(records), StreamOfAttempt(r.attempt)) == Normalized(r)
  {
    hide Normalized, OfStream;
    var n := |records| - 1;
    var last := records[n];
    var init := records[..n];
    var t := StreamOfAttempt(r.attempt);
    assert records == init + [last];
    OfStreamConcat(Gathered(init), Normalized(last), t);
    NormalizedIsChained(last);
    OfOneStream(Normalized(last), StreamOfAttempt(last.attempt), t);
    if r in init {
      var i :| 0 <= i < n && init[i] == r;
      assert records[i] == r && r.attempt != last.attempt;
      GatheredStream(init, r);
    } else {
      NoStreamOf(init, r.attempt) by {
        forall x | x in init ensures x.attempt != r.attempt {
          var i :| 0 <= i < n && init[i] == x;
          assert records[i] == x;
        }
      }
    }
  }

  lemma {:induction false} NoStreamOf(records: seq<Record>, attempt: AttemptId)
    requires forall x :: x in records ==> x.attempt != attempt
    ensures OfStream(Gathered(records), StreamOfAttempt(attempt)) == []
  {
    hide Normalized;
    if records != [] {
      var n := |records| - 1;
      assert records == records[..n] + [records[n]];
      assert records[n] in records;
      NoStreamOf(records[..n], attempt);
      OfStreamConcat(Gathered(records[..n]), Normalized(records[n]), StreamOfAttempt(attempt));
      NormalizedIsChained(records[n]);
      OfOneStream(Normalized(records[n]), StreamOfAttempt(records[n].attempt), StreamOfAttempt(attempt));
    }
  }

  lemma {:induction false} NumberedIsOrdered(events: seq<Event>, k: nat)
    requires forall i :: 0 <= i < |events| ==> events[i].body.sequenceNo == k + i
    ensures Ordered(events, BySequence())
  {
    if events != [] {
      NumberedIsOrdered(events[1..], k + 1);
      forall e | e in events[1..] ensures LexLeq(BySequence()(events[0]), BySequence()(e)) {
        var i :| 0 <= i < |events[1..]| && events[1..][i] == e;
        assert events[i + 1] == e;
      }
    }
  }

  /** A chain is already in order. */
  lemma {:induction false} ChainIsSorted(events: seq<Event>)
    requires Chained(events)
    ensures Sort(events, BySequence()) == events
  {
    hide LexLeq, Sort;
    forall i | 0 <= i < |events| ensures events[i].body.sequenceNo == i {
      assert Linked(events, i);
    }
    NumberedIsOrdered(events, 0);
    SortKeeps(events, BySequence());
    forall x, y | x in events && y in events && BySequence()(x) == BySequence()(y) ensures x == y {
      assert BySequence()(x)[0] == BySequence()(y)[0];
    }
    OrderedIsUnique(events, Sort(events, BySequence()), BySequence());
  }

  lemma {:induction false} GatheredStreams(records: seq<Record>, t: StreamId) returns (r: Record)
    requires DifferentAttempts(records) && t in StreamIds(Gathered(records))
    ensures r in records && t == StreamOfAttempt(r.attempt) && StreamOf(Gathered(records), t) == Normalized(r)
    ensures Chained(Normalized(r)) && Normalized(r)[0].Kind() == AttemptStream
  {
    hide Chained, Normalized, StreamIds, OfStream, Sort, Gathered;
    StreamIdsMembers(Gathered(records));
    GatheredMembers(records);
    var e :| e in Gathered(records) && e.body.stream == t;
    r :| r in records && e in Normalized(r);
    NormalizedIsChained(r);
    GatheredStream(records, r);
    ChainIsSorted(Normalized(r));
    var first := Normalized(r)[0];
    assert first in Normalized(r);
  }

  lemma {:induction false} GatheredIdsDiffer(records: seq<Record>)
    requires DifferentAttempts(records)
    ensures DistinctIds(Gathered(records))
  {
    hide Normalized;
    if records != [] {
      var n := |records| - 1;
      var init, last := records[..n], records[n];
      GatheredIdsDiffer(init);
      NormalizedIsChained(last);
      GatheredMembers(init);
      var a, b := Gathered(init), Normalized(last);
      forall i, j | 0 <= i < |a| && 0 <= j < |b| ensures a[i].body.id != b[j].body.id {
        var x, y := a[i], b[j];
        assert x in a && y in b;
        var r :| r in init && x in Normalized(r);
        NormalizedIsChained(r);
        var k :| 0 <= k < n && init[k] == r;
        assert records[k] == r;
      }
      var all := Gathered(records);
      assert all == a + b;
      forall i, j | 0 <= i < j < |all| ensures all[i].body.id != all[j].body.id {
        assert all[i] == if i < |a| then a[i] else b[i - |a|];
        assert all[j] == if j < |a| then a[j] else b[j - |a|];
      }
    }
  }

  lemma {:induction false} GatheredIsValid(records: seq<Record>)
    requires DifferentAttempts(records)
    ensures ValidSource(Gathered(records)) && SeparateAttempts(Gathered(records)) && Unordered(Gathered(records)).Ok?
  {
    hide Gathered, Normalized, Chained, StreamIds, StreamOf, StreamsOfKind, AttemptOf, DistinctIds, Concerns;
    var events := Gathered(records);
    GatheredIdsDiffer(records);
    forall t | t in StreamIds(events) ensures Chained(StreamOf(events, t)) && AttemptOf(StreamOf(events, t)).Ok? {
      var r := GatheredStreams(records, t);
      NormalizedIsRebuilt(r);
    }
    GatheredMembers(records);
    forall x | x in events && x.body.payload.AttemptStarted? ensures x.body.stream == StreamOfAttempt(x.body.payload.attempt) {
      var r :| r in records && x in Normalized(r);
      NormalizedIsChained(r);
      assert Concerns(x, r.attempt);
      ConcernsItsAttempt(x, r.attempt);
    }
    var streams := StreamsOfKind(events, StreamIds(events), AttemptStream);
    AttemptsListed(streams);
    forall s | s in streams ensures AttemptOf(s).Ok? {
      StreamsMembers(events, StreamIds(events), AttemptStream, s);
    }
  }

  lemma {:induction false} ConcernsItsAttempt(e: Event, attempt: AttemptId)
    requires Concerns(e, attempt)
    ensures e.Kind() == AttemptStream && e.body.stream == StreamOfAttempt(e.body.payload.attempt)
  {
  }

  lemma {:induction false} GatheredHasNoIndex(records: seq<Record>, kind: StreamKind)
    requires DifferentAttempts(records) && kind != AttemptStream
    ensures SingleStream(Gathered(records), kind) == Ok([])
  {
    hide Gathered, Normalized, Chained, StreamIds, StreamOf, StreamsOfKind;
    var events := Gathered(records);
    var streams := StreamsOfKind(events, StreamIds(events), kind);
    if streams != [] {
      var s := streams[0];
      assert s in streams;
      StreamsMembers(events, StreamIds(events), kind, s);
      var t :| t in StreamIds(events) && s == StreamOf(events, t);
      var r := GatheredStreams(records, t);
    }
  }

  /** Normalized attempts with different identifiers always make up a memory, the same in every order, that holds each of them. */
  lemma {:induction false} MemoryOfAttempts(records: seq<Record>, events: seq<Event>)
    requires DifferentAttempts(records) && multiset(events) == multiset(Gathered(records))
    ensures Rebuild(events).Ok? && Rebuild(events) == Rebuild(Gathered(records))
    ensures forall r :: r in records ==> AttemptOf(Normalized(r)).Ok? && AttemptOf(Normalized(r)).value in Rebuild(events).value.attempts
  {
    hide Gathered, Normalized, ValidSource, SeparateAttempts, AttemptsOf, StreamsOfKind, SingleStream, StreamOf,
      LearningFor, Sort, AttemptOf;
    var all := Gathered(records);
    GatheredIsValid(records);
    GatheredHasNoIndex(records, NoveltyStream);
    GatheredHasNoIndex(records, ArtifactStream);
    assert Rebuild(all).Ok?;
    RebuildForgetsOrder(all, events);
    RebuildParts(all);
    SortKeeps(Unordered(all).value, ByAttempt());
    forall r | r in records ensures AttemptOf(Normalized(r)).Ok? && AttemptOf(Normalized(r)).value in Rebuild(events).value.attempts {
      var e := OpeningEvent(r);
      GatheredMembers(records);
      assert e in all;
      var a := StartIsRebuilt(all, e);
      StreamOfRecord(records, r);
    }
  }

  lemma {:induction false} StreamOfRecord(records: seq<Record>, r: Record)
    requires DifferentAttempts(records) && r in records
    ensures StreamOf(Gathered(records), StreamOfAttempt(r.attempt)) == Normalized(r)
  {
    hide Normalized, OfStream, Sort, Gathered, Chained;
    GatheredStream(records, r);
    NormalizedIsChained(r);
    ChainIsSorted(Normalized(r));
  }

  lemma {:induction false} OpeningEvent(record: Record) returns (e: Event)
    ensures
      && e in Normalized(record)
      && e.body.payload.AttemptStarted?
      && e.body.stream == StreamOfAttempt(record.attempt)
  {
    hide Sealed, Novel, Closing, Combined;
    SealedAt(record.attempt, Facts(record), 0);
    e := Normalized(record)[0];
    assert e in Normalized(record);
  }

  // ----- completion -----

  predicate CompletionRecorded(s: Play.Session) {
    s.view.status.Completed? <==> exists e :: e in s.events && Completes(e)
  }

  /** Only an accepted completion check completes a session, and it is recorded as such. */
  lemma {:induction false} StepRecordsCompletion(s: Play.Session, spec: LogicGrid.GridSpec, id: Play.EventId,
      action: Play.Action)
    requires LogicGrid.Shaped(spec) && Play.Step(s, spec, id, action).Ok? && CompletionRecorded(s)
    ensures CompletionRecorded(Play.Step(s, spec, id, action).value)
  {
    hide Play.Conflicts, Play.Project, LogicGrid.CleanListing, Play.CellRejection, Play.MoveEvents, Play.WellShaped,
      LogicGrid.Accepts;
    PlayRuns.StepRecords(s, spec, id, action);
    var d := Play.Decide(s, spec, id, action).value;
    var next := Play.Step(s, spec, id, action).value;
    var recorded := Play.EventFor(s, id, action, d);
    assert next.events == s.events + [recorded];
    assert next.view.status.Completed? <==> s.view.status.Completed? || Completes(recorded);
    assert recorded in next.events;
    if e :| e in s.events && Completes(e) {
      assert e in next.events;
    }
    if e :| e in next.events && Completes(e) {
      assert e in s.events || e == recorded;
    }
  }

  lemma {:induction false} RunRecordsCompletion(s: Play.Session, spec: LogicGrid.GridSpec,
      inputs: seq<PlayRuns.Input>, t: Play.Session)
    requires LogicGrid.Shaped(spec) && CompletionRecorded(s) && PlayRuns.RunFrom(s, spec, inputs) == Ok(t)
    ensures CompletionRecorded(t)
  {
    hide Play.Apply, Play.Step, CompletionRecorded;
    if inputs != [] {
      var n := |inputs| - 1;
      var earlier := PlayRuns.RunFrom(s, spec, inputs[..n]).value;
      RunRecordsCompletion(s, spec, inputs[..n], earlier);
      PlayRuns.ApplyIsStep(earlier, spec, inputs[n].id, inputs[n].action);
      StepRecordsCompletion(earlier, spec, inputs[n].id, inputs[n].action);
    }
  }

  lemma {:induction false} CompletionIsFirst(observations: seq<Observed<Play.PlayEvent>>)
    ensures Completion(observations).Some? <==> exists o :: o in observations && Completes(o.content)
  {
    hide Completes;
    if observations != [] {
      CompletionIsFirst(observations[1..]);
      assert observations == [observations[0]] + observations[1..];
      assert observations[0] in observations;
      if o :| o in observations && Completes(o.content) {
        assert o == observations[0] || o in observations[1..];
      }
      if o :| o in observations[1..] && Completes(o.content) {
        assert o in observations;
      }
    }
  }

  /** The observations of a session are its events, in order. */
  predicate Observes(record: Record, s: Play.Session) {
    && |record.observations| == |s.events|
    && forall i :: 0 <= i < |s.events| ==> record.observations[i].content == s.events[i]
  }

  /** The projection of a reachable session's record is completed exactly when the session is. */
  lemma {:induction false} ProjectionCompletesWithSession(record: Record, s: Play.Session, spec: LogicGrid.GridSpec)
    requires LogicGrid.Shaped(spec) && PlayRuns.Reachable(s, spec) && Observes(record, s)
    ensures AttemptOf(Normalized(record)).Ok?
    ensures AttemptOf(Normalized(record)).value.status == Status.Completed <==> s.view.status.Completed?
  {
    hide Normalized, AttemptOf, PlayRuns.RunFrom, Completes, LogicGrid.Shaped;
    var start := Play.Start(spec, s.view.attempt, s.view.mode).value;
    var inputs :| PlayRuns.RunFrom(start, spec, inputs) == Ok(s);
    assert CompletionRecorded(start);
    RunRecordsCompletion(start, spec, inputs, s);
    NormalizedIsRebuilt(record);
    CompletionIsFirst(record.observations);
    if e :| e in s.events && Completes(e) {
      var i :| 0 <= i < |s.events| && s.events[i] == e;
      var o := record.observations[i];
      assert o in record.observations && Completes(o.content);
    }
    if o :| o in record.observations && Completes(o.content) {
      var i :| 0 <= i < |s.events| && record.observations[i] == o;
      var e := s.events[i];
      assert e in s.events && Completes(e);
    }
  }
}

/** Memory projections rebuilt from hash-chained source streams. */
module Projections {
  import opened Prelude
  import opened Sorting
  import Play

  type AttemptId = Identifier
  type UserId = Identifier
  type RuleId = Identifier

  /** Streams and events derived from an attempt carry digests of what they are derived from. */
  datatype StreamId = NamedStream(name: Identifier) | StreamOfAttempt(attempt: AttemptId)
  datatype EventId = NamedEvent(name: Identifier) | FactOf(attempt: AttemptId, source: Source)
  datatype Source =
    | AttemptStart
    | EvaluationSource(digest: Identifier)
    | HintSource(digest: Identifier)
    | CompletionSource(event: Play.PlayDigest)

  datatype StreamKind = AttemptStream | NoveltyStream | ArtifactStream

  /** `content` stands for the fields an entry copies without looking at them. */
  datatype Payload =
    | AttemptStarted(attempt: AttemptId, user: UserId, revision: Identifier)
    | MoveEvaluated(attempt: AttemptId, accepted: bool, rule: Option<RuleId>)
    | HintRevealed(attempt: AttemptId, rule: Option<RuleId>)
    | StepExplained(attempt: AttemptId, explained: RuleId)
    | AttemptCompleted(attempt: AttemptId)
    | AttemptAbandoned(attempt: AttemptId)
    | SelfAssessed(attempt: AttemptId, rating: int)
    | ReplayViewed(attempt: AttemptId)
    | NoveltyRecorded(revision: Identifier, content: Identifier)
    | NoveltyRemoved(revision: Identifier)
    | ArtifactRecorded(artifact: Identifier, content: Identifier)
    | ArtifactSuperseded(artifact: Identifier, replacement: Identifier)
    | ArtifactRemoved(artifact: Identifier)
  {
    function Kind(): StreamKind {
      if NoveltyRecorded? || NoveltyRemoved? then NoveltyStream
      else if ArtifactRecorded? || ArtifactSuperseded? || ArtifactRemoved? then ArtifactStream
      else AttemptStream
    }
  }

  datatype ProjectionDigest = ProjectionGenesis | OfBody(body: Body)

  datatype Body = Body(id: EventId, stream: StreamId, sequenceNo: nat, context: Identifier, previous: ProjectionDigest, payload: Payload)

  /** The stream kind is that of the payload, as the envelope validator demands. */
  datatype Event = Event(body: Body, hash: ProjectionDigest) {
    function Kind(): StreamKind {
      body.payload.Kind()
    }
  }

  // ----- chains -----

  /** Nothing is reported for the event at position `i`. */
  predicate Linked(events: seq<Event>, i: nat)
    requires i < |events|
  {
    var e := events[i];
    && (forall j :: 0 <= j < i ==> events[j].body.id != e.body.id)
    && e.body.sequenceNo == i
    && e.body.stream == events[0].body.stream && e.Kind() == events[0].Kind()
    && e.body.previous == (if i == 0 then ProjectionGenesis else events[i - 1].hash)
    && e.hash == OfBody(e.body)
  }

  predicate Chained(events: seq<Event>) {
    forall i :: 0 <= i < |events| ==> Linked(events, i)
  }

  /** `projection_event_chain_failures`: no failure is collected exactly when every event is linked. */
  method ChainFailures(events: seq<Event>) returns (failures: nat)
    ensures failures == 0 <==> Chained(events)
  {
    var previous := ProjectionGenesis;
    var seen: set<EventId> := {};
    failures := 0;
    for i := 0 to |events|
      invariant previous == if i == 0 then ProjectionGenesis else events[i - 1].hash
      invariant forall id :: id in seen <==> exists j :: 0 <= j < i && events[j].body.id == id
      invariant failures == 0 <==> forall j :: 0 <= j < i ==> Linked(events, j)
    {
      var e := events[i];
      var before := failures;
      if e.body.id in seen {
        failures := failures + 1;
      }
      seen := seen + {e.body.id};
      if e.body.sequenceNo != i {
        failures := failures + 1;
      }
      if e.body.stream != events[0].body.stream || e.Kind() != events[0].Kind() {
        failures := failures + 1;
      }
      if e.body.previous != previous {
        failures := failures + 1;
      }
      if e.hash != OfBody(e.body) {
        failures := failures + 1;
      }
      assert failures == before <==> Linked(events, i);
      previous := e.hash;
    }
  }

  // ----- grouping -----

  function OfStream(events: seq<Event>, t: StreamId): seq<Event> {
    if events == [] then []
    else
      var rest := OfStream(events[1..], t);
      if events[0].body.stream == t then [events[0]] + rest else rest
  }

  /** Stream identifiers in the order of their first events. */
  function StreamIds(events: seq<Event>): seq<StreamId> {
    if events == [] then []
    else
      var n := |events| - 1;
      var earlier := StreamIds(events[..n]);
      if events[n].body.stream in earlier then earlier else earlier + [events[n].body.stream]
  }

  function BySequence(): Event -> Key {
    (e: Event) => [e.body.sequenceNo]
  }

  function StreamOf(events: seq<Event>, t: StreamId): seq<Event> {
    Sort(OfStream(events, t), BySequence())
  }

  predicate DistinctIds(events: seq<Event>) {
    forall i, j :: 0 <= i < j < |events| ==> events[i].body.id != events[j].body.id
  }

  /** `_validated_streams` accepts: no identifier repeats and every sorted stream is a chain. */
  predicate ValidSource(events: seq<Event>) {
    DistinctIds(events) && forall t :: t in StreamIds(events) ==> Chained(StreamOf(events, t))
  }

  /** The grouping loop: duplicates are refused, every other event joins its stream. */
  method GroupEvents(events: seq<Event>) returns (ok: bool, ids: seq<StreamId>, grouped: map<StreamId, seq<Event>>)
    ensures ok <==> DistinctIds(events)
    ensures ok ==> ids == StreamIds(events)
    ensures ok ==> forall t :: t in ids ==> t in grouped && grouped[t] == OfStream(events, t)
  {
    hide OfStream, StreamIds, DistinctIds;
    var seen: set<EventId> := {};
    ids, grouped := [], map[];
    NothingGrouped(events);
    for i := 0 to |events|
      invariant DistinctIds(events[..i])
      invariant forall id :: id in seen <==> exists j :: 0 <= j < i && events[j].body.id == id
      invariant ids == StreamIds(events[..i])
      invariant forall t :: t in ids <==> t in grouped
      invariant forall t :: t in grouped ==> grouped[t] == OfStream(events[..i], t)
      invariant forall t :: t !in grouped ==> OfStream(events[..i], t) == []
    {
      var e := events[i];
      assert events[..i + 1][..i] == events[..i] && events[..i + 1] == events[..i] + [e];
      DistinctExtends(events, i);
      StreamIdsExtend(events[..i], e);
      if e.body.id in seen {
        return false, [], map[];
      }
      forall t ensures OfStream(events[..i + 1], t) == OfStream(events[..i], t) + (if e.body.stream == t then [e] else []) {
        OfStreamExtends(events[..i], e, t);
      }
      seen := seen + {e.body.id};
      var t := e.body.stream;
      if t in grouped {
        grouped := grouped[t := grouped[t] + [e]];
      } else {
        ids := ids + [t];
        grouped := grouped[t := [e]];
      }
    }
    assert events[..|events|] == events;
    ok := true;
  }

  lemma {:induction false} NothingGrouped(events: seq<Event>)
    ensures DistinctIds(events[..0]) && StreamIds(events[..0]) == []
    ensures forall t :: OfStream(events[..0], t) == []
  {
  }

  lemma {:induction false} StreamIdsExtend(events: seq<Event>, e: Event)
    ensures StreamIds(events + [e]) == StreamIds(events) + (if e.body.stream in StreamIds(events) then [] else [e.body.stream])
  {
    assert (events + [e])[..|events|] == events;
  }

  lemma {:induction false} OfStreamExtends(events: seq<Event>, e: Event, t: StreamId)
    ensures OfStream(events + [e], t) == OfStream(events, t) + (if e.body.stream == t then [e] else [])
  {
    if events == [] {
      assert [e][1..] == [];
    } else {
      assert (events + [e])[1..] == events[1..] + [e];
      OfStreamExtends(events[1..], e, t);
    }
  }

  lemma {:induction false} DistinctExtends(events: seq<Event>, i: nat)
    requires i < |events| && DistinctIds(events[..i])
    ensures DistinctIds(events[..i + 1]) <==> !exists j :: 0 <= j < i && events[j].body.id == events[i].body.id
    ensures !DistinctIds(events[..i + 1]) ==> !DistinctIds(events)
  {
    var longer := events[..i + 1];
    assert forall j :: 0 <= j <= i ==> longer[j] == events[j];
    assert forall j :: 0 <= j < i ==> events[..i][j] == events[j];
    if j :| 0 <= j < i && events[j].body.id == events[i].body.id {
      assert longer[j].body.id == longer[i].body.id;
    } else {
      forall j, k | 0 <= j < k < |longer| ensures longer[j].body.id != longer[k].body.id {
        if k < i {
          assert events[..i][j].body.id != events[..i][k].body.id;
        }
      }
    }
  }

  // ----- attempts -----

  datatype Status = Active | Completed | Abandoned

  datatype Counts = Counts(accepted: nat, rejected: nat, hints: nat, explanations: nat, evidence: seq<EventId>)

  const NO_COUNTS := Counts(0, 0, 0, 0, [])

  datatype Attempt = Attempt(
    attempt: AttemptId, user: UserId, revision: Identifier, stream: StreamId, status: Status,
    accepted: nat, rejected: nat, hints: nat, explanations: nat, replays: nat, assessment: Option<int>,
    rules: map<RuleId, Counts>, sources: seq<EventId>, head: ProjectionDigest)

  function CountsOf(rules: map<RuleId, Counts>, r: RuleId): Counts {
    if r in rules then rules[r] else NO_COUNTS
  }

  /** What one event adds to a rule's counts. */
  function Tally(c: Counts, e: Event): Counts {
    var noted := c.(evidence := c.evidence + [e.body.id]);
    match e.body.payload
    case MoveEvaluated(_, accepted, _) =>
      if accepted then noted.(accepted := c.accepted + 1) else noted.(rejected := c.rejected + 1)
    case HintRevealed(_, _) => noted.(hints := c.hints + 1)
    case StepExplained(_, _) => noted.(explanations := c.explanations + 1)
    case _ => c
  }

  /** The rule an event is evidence about. */
  function RuleOf(payload: Payload): Option<RuleId> {
    match payload
    case MoveEvaluated(_, _, rule) => rule
    case HintRevealed(_, rule) => rule
    case StepExplained(_, rule) => Some(rule)
    case _ => None
  }

  function Absorb(a: Attempt, e: Event): Result<Attempt> {
    var p := e.body.payload;
    if p.Kind() != AttemptStream || p.attempt != a.attempt then Err(InvalidValue)
    else if !a.status.Active? then Err(InvalidValue)
    else
      var rule := RuleOf(p);
      var noted := if rule.Some? then a.(rules := a.rules[rule.value := Tally(CountsOf(a.rules, rule.value), e)]) else a;
      match p
      case AttemptStarted(_, _, _) => Err(InvalidValue)
      case MoveEvaluated(_, accepted, _) =>
        Ok(if accepted then noted.(accepted := a.accepted + 1) else noted.(rejected := a.rejected + 1))
      case HintRevealed(_, _) => Ok(noted.(hints := a.hints + 1))
      case StepExplained(_, _) => Ok(noted.(explanations := a.explanations + 1))
      case ReplayViewed(_) => Ok(noted.(replays := a.replays + 1))
      case SelfAssessed(_, rating) => Ok(noted.(assessment := Some(rating)))
      case AttemptCompleted(_) => Ok(noted.(status := Completed))
      case AttemptAbandoned(_) => Ok(noted.(status := Abandoned))
      case _ => Err(InvalidValue)
  }

  /** The counters after the events of a stream. */
  function Counted(events: seq<Event>): Result<Attempt> {
    if events == [] then Err(InvalidValue)
    else if |events| == 1 then
      var p := events[0].body.payload;
      if !p.AttemptStarted? then Err(InvalidValue)
      else Ok(Attempt(p.attempt, p.user, p.revision, events[0].body.stream, Active, 0, 0, 0, 0, 0, None, map[],
                      [events[0].body.id], events[0].hash))
    else
      var n := |events| - 1;
      var earlier :- Counted(events[..n]);
      var absorbed :- Absorb(earlier, events[n]);
      Ok(absorbed.(sources := earlier.sources + [events[n].body.id], head := events[n].hash))
  }

  /** `rebuild_attempt_projection`, as a function of its stream. */
  function AttemptOf(events: seq<Event>): Result<Attempt> {
    if !Chained(events) then Err(InvalidValue) else Counted(events)
  }

  /** `rebuild_attempt_projection`: counters and the rule dictionary are updated event by event. */
  method RebuildAttempt(events: seq<Event>) returns (r: Result<Attempt>)
    ensures r == AttemptOf(events)
  {
    hide Absorb, Tally, Linked;
    var failures := ChainFailures(events);
    if failures != 0 || events == [] {
      return Err(InvalidValue);
    }
    r := Counted(events[..1]);
    for i := 1 to |events|
      invariant r == Counted(events[..i])
    {
      assert events[..i + 1][..i] == events[..i];
      if r.Ok? {
        var absorbed := Absorb(r.value, events[i]);
        r := if absorbed.Err? then Err(absorbed.error)
             else Ok(absorbed.value.(sources := r.value.sources + [events[i].body.id], head := events[i].hash));
      }
    }
    assert events[..|events|] == events;
  }

  // ----- learning -----

  datatype Lesson = Lesson(attempts: nat, accepted: nat, rejected: nat, hints: nat, explanations: nat, evidence: set<EventId>)

  const NO_LESSON := Lesson(0, 0, 0, 0, 0, {})

  datatype Learning = Learning(
    user: UserId, observed: nat, completed: nat, abandoned: nat, active: nat,
    rules: map<RuleId, Lesson>, streams: seq<StreamId>, heads: seq<ProjectionDigest>)

  function ByAttempt(): Attempt -> Key {
    (a: Attempt) => [a.attempt]
  }

  function OfUser(attempts: seq<Attempt>, u: UserId): seq<Attempt> {
    if attempts == [] then []
    else
      var n := |attempts| - 1;
      var earlier := OfUser(attempts[..n], u);
      if attempts[n].user == u then earlier + [attempts[n]] else earlier
  }

  function LessonOf(attempts: seq<Attempt>, r: RuleId): Lesson {
    if attempts == [] then NO_LESSON
    else
      var n := |attempts| - 1;
      var earlier := LessonOf(attempts[..n], r);
      if r in attempts[n].rules then Plus(earlier, attempts[n].rules[r]) else earlier
  }

  function RulesSeen(attempts: seq<Attempt>): set<RuleId> {
    set a, r | a in attempts && r in a.rules :: r
  }

  function HowMany(attempts: seq<Attempt>, status: Status): nat {
    if attempts == [] then 0
    else HowMany(attempts[..|attempts| - 1], status) + (if attempts[|attempts| - 1].status == status then 1 else 0)
  }

  /** One user's learning, from that user's attempts in order. */
  function LearningOf(u: UserId, observed: seq<Attempt>): Learning {
    Learning(u, |observed|, HowMany(observed, Completed), HowMany(observed, Abandoned), HowMany(observed, Active),
             map r | r in RulesSeen(observed) :: LessonOf(observed, r),
             seq(|observed|, i requires 0 <= i < |observed| => observed[i].stream),
             seq(|observed|, i requires 0 <= i < |observed| => observed[i].head))
  }

  function Users(attempts: seq<Attempt>): set<UserId> {
    set a | a in attempts :: a.user
  }

  lemma {:induction false} LessonAdds(attempts: seq<Attempt>, r: RuleId)
    requires attempts != []
    ensures var n := |attempts| - 1;
      var earlier := LessonOf(attempts[..n], r);
      LessonOf(attempts, r) == if r in attempts[n].rules then Plus(earlier, attempts[n].rules[r]) else earlier
  {
  }

  /** One attempt's evidence joins the dictionary rule by rule. */
  method AddEvidence(rules: map<RuleId, Lesson>, a: Attempt) returns (more: map<RuleId, Lesson>)
    ensures forall r :: r in more <==> r in rules || r in a.rules
    ensures forall r :: Learned(more, r) == if r in a.rules then Plus(Learned(rules, r), a.rules[r]) else Learned(rules, r)
  {
    hide Plus, Ascending;
    var ids := Ascending(a.rules.Keys);
    AscendingElements(a.rules.Keys);
    forall r ensures r in ids <==> r in a.rules {
      assert r in a.rules.Keys <==> r in a.rules;
    }
    more := rules;
    for k := 0 to |ids|
      invariant forall r :: r in more <==> r in rules || r in ids[..k]
      invariant forall r :: Learned(more, r) == if r in ids[..k] then Plus(Learned(rules, r), a.rules[r]) else Learned(rules, r)
    {
      var next := ids[k];
      assert next in ids && next !in ids[..k] && ids[..k + 1] == ids[..k] + [next];
      more := more[next := Plus(Learned(more, next), a.rules[next])];
    }
    assert ids[..|ids|] == ids;
  }

  method Lessons(observed: seq<Attempt>) returns (rules: map<RuleId, Lesson>)
    ensures rules == map r | r in RulesSeen(observed) :: LessonOf(observed, r)
  {
    assert forall r :: LessonOf(observed[..0], r) == NO_LESSON;
    hide LessonOf;
    rules := map[];
    for i := 0 to |observed|
      invariant forall r :: r in rules <==> r in RulesSeen(observed[..i])
      invariant forall r :: Learned(rules, r) == LessonOf(observed[..i], r)
    {
      var a := observed[i];
      assert observed[..i + 1][..i] == observed[..i] && observed[..i + 1] == observed[..i] + [a];
      var before := rules;
      rules := AddEvidence(rules, a);
      forall r ensures Learned(rules, r) == LessonOf(observed[..i + 1], r) && (r in rules <==> r in RulesSeen(observed[..i + 1])) {
        LessonAdds(observed[..i + 1], r);
        assert r in rules <==> r in before || r in a.rules;
        assert a in observed[..i + 1];
      }
    }
    assert observed[..|observed|] == observed;
    forall r | r in rules ensures rules[r] == LessonOf(observed, r) {
      assert Learned(rules, r) == LessonOf(observed, r);
    }
    forall r ensures r in rules <==> r in RulesSeen(observed) {
      assert r in rules <==> r in RulesSeen(observed[..|observed|]);
    }
  }

  function Learned(rules: map<RuleId, Lesson>, r: RuleId): Lesson {
    if r in rules then rules[r] else NO_LESSON
  }

  function Plus(l: Lesson, c: Counts): Lesson {
    Lesson(l.attempts + 1, l.accepted + c.accepted, l.rejected + c.rejected,
           l.hints + c.hints, l.explanations + c.explanations, l.evidence + Elements(c.evidence))
  }

  function LearningFor(attempts: seq<Attempt>, users: seq<UserId>): (r: seq<Learning>)
    ensures |r| == |users|
  {
    seq(|users|, i requires 0 <= i < |users| => LearningOf(users[i], Sort(OfUser(attempts, users[i]), ByAttempt())))
  }

  /** `rebuild_learning_projections` */
  method RebuildLearning(attempts: seq<Attempt>) returns (learning: seq<Learning>)
    ensures learning == LearningFor(attempts, Ascending(Users(attempts)))
  {
    hide Ascending, Users, OfUser, Sort, HowMany, LessonOf, RulesSeen;
    var users := Ascending(Users(attempts));
    learning := [];
    for i := 0 to |users|
      invariant |learning| == i
      invariant forall j :: 0 <= j < i ==> learning[j] == LearningFor(attempts, users)[j]
    {
      var observed := Sort(OfUser(attempts, users[i]), ByAttempt());
      var rules := Lessons(observed);
      var view := Learning(users[i], |observed|,
                           HowMany(observed, Completed), HowMany(observed, Abandoned), HowMany(observed, Active), rules,
                           seq(|observed|, k requires 0 <= k < |observed| => observed[k].stream),
                           seq(|observed|, k requires 0 <= k < |observed| => observed[k].head));
      assert view.streams == LearningOf(users[i], observed).streams;
      assert view.heads == LearningOf(users[i], observed).heads;
      learning := learning + [view];
    }
  }

  // ----- indexes -----

  datatype Entry = Entry(content: Identifier, source: EventId, supersededBy: Option<Identifier>)

  type Entries = map<Identifier, Entry>

  function Novelty(events: seq<Event>): Result<Entries> {
    if events == [] then Ok(map[])
    else
      var n := |events| - 1;
      var earlier :- Novelty(events[..n]);
      match events[n].body.payload
      case NoveltyRecorded(revision, content) =>
        if revision in earlier then Err(InvalidValue)
        else Ok(earlier[revision := Entry(content, events[n].body.id, None)])
      case NoveltyRemoved(revision) => if revision !in earlier then Err(InvalidValue) else Ok(earlier - {revision})
      case _ => Err(InvalidValue)
  }

  function Artifacts(events: seq<Event>): Result<Entries> {
    if events == [] then Ok(map[])
    else
      var n := |events| - 1;
      var earlier :- Artifacts(events[..n]);
      match events[n].body.payload
      case ArtifactRecorded(artifact, content) =>
        if artifact in earlier then Err(InvalidValue)
        else Ok(earlier[artifact := Entry(content, events[n].body.id, None)])
      case ArtifactSuperseded(artifact, replacement) =>
        if artifact !in earlier || replacement !in earlier || artifact == replacement then Err(InvalidValue)
        else Ok(earlier[artifact := earlier[artifact].(supersededBy := Some(replacement))])
      case ArtifactRemoved(artifact) => if artifact !in earlier then Err(InvalidValue) else Ok(earlier - {artifact})
      case _ => Err(InvalidValue)
  }

  method RebuildNovelty(events: seq<Event>) returns (r: Result<Entries>)
    ensures r == Novelty(events)
  {
    var entries: Entries := map[];
    for i := 0 to |events|
      invariant Novelty(events[..i]) == Ok(entries)
    {
      assert events[..i + 1][..i] == events[..i];
      match events[i].body.payload
      case NoveltyRecorded(revision, content) =>
        if revision in entries {
          NoveltyStops(events, i + 1);
          return Err(InvalidValue);
        }
        entries := entries[revision := Entry(content, events[i].body.id, None)];
      case NoveltyRemoved(revision) =>
        if revision !in entries {
          NoveltyStops(events, i + 1);
          return Err(InvalidValue);
        }
        entries := entries - {revision};
      case _ =>
        NoveltyStops(events, i + 1);
        return Err(InvalidValue);
    }
    assert events[..|events|] == events;
    r := Ok(entries);
  }

  lemma {:induction false} NoveltyStops(events: seq<Event>, i: nat)
    requires i <= |events| && Novelty(events[..i]) == Err(InvalidValue)
    ensures Novelty(events) == Err(InvalidValue)
    decreases |events| - i
  {
    if i == |events| {
      assert events[..i] == events;
    } else {
      assert events[..i + 1][..i] == events[..i];
      NoveltyStops(events, i + 1);
    }
  }

  method RebuildArtifacts(events: seq<Event>) returns (r: Result<Entries>)
    ensures r == Artifacts(events)
  {
    var entries: Entries := map[];
    for i := 0 to |events|
      invariant Artifacts(events[..i]) == Ok(entries)
    {
      assert events[..i + 1][..i] == events[..i];
      match events[i].body.payload
      case ArtifactRecorded(artifact, content) =>
        if artifact in entries {
          ArtifactsStop(events, i + 1);
          return Err(InvalidValue);
        }
        entries := entries[artifact := Entry(content, events[i].body.id, None)];
      case ArtifactSuperseded(artifact, replacement) =>
        if artifact !in entries || replacement !in entries || artifact == replacement {
          ArtifactsStop(events, i + 1);
          return Err(InvalidValue);
        }
        entries := entries[artifact := entries[artifact].(supersededBy := Some(replacement))];
      case ArtifactRemoved(artifact) =>
        if artifact !in entries {
          ArtifactsStop(events, i + 1);
          return Err(InvalidValue);
        }
        entries := entries - {artifact};
      case _ =>
        ArtifactsStop(events, i + 1);
        return Err(InvalidValue);
    }
    assert events[..|events|] == events;
    r := Ok(entries);
  }

  lemma {:induction false} ArtifactsStop(events: seq<Event>, i: nat)
    requires i <= |events| && Artifacts(events[..i]) == Err(InvalidValue)
    ensures Artifacts(events) == Err(InvalidValue)
    decreases |events| - i
  {
    if i == |events| {
      assert events[..i] == events;
    } else {
      assert events[..i + 1][..i] == events[..i];
      ArtifactsStop(events, i + 1);
    }
  }

  /** The entries with the stream and head they come from. */
  datatype Index = Index(entries: Entries, stream: Option<StreamId>, head: Option<ProjectionDigest>)

  function IndexOver(events: seq<Event>, entries: Entries): Index {
    if events == [] then Index(entries, None, None)
    else Index(entries, Some(events[0].body.stream), Some(events[|events| - 1].hash))
  }

  // ----- the bundle -----

  datatype Bundle = Bundle(attempts: seq<Attempt>, learning: seq<Learning>, novelty: Index, artifacts: Index, sources: nat)

  /** The sorted streams of one kind, in the order of their first events. */
  function StreamsOfKind(events: seq<Event>, ids: seq<StreamId>, kind: StreamKind): seq<seq<Event>> {
    if ids == [] then []
    else
      var stream := StreamOf(events, ids[0]);
      var rest := StreamsOfKind(events, ids[1..], kind);
      if stream != [] && stream[0].Kind() == kind then [stream] + rest else rest
  }

  function AttemptsOf(streams: seq<seq<Event>>): Result<seq<Attempt>> {
    if streams == [] then Ok([])
    else
      var first :- AttemptOf(streams[0]);
      var rest :- AttemptsOf(streams[1..]);
      Ok([first] + rest)
  }

  function SingleStream(events: seq<Event>, kind: StreamKind): Result<seq<Event>> {
    var matching := StreamsOfKind(events, StreamIds(events), kind);
    if |matching| > 1 then Err(InvalidValue) else Ok(if matching == [] then [] else matching[0])
  }

  /** `rebuild_memory_projections` */
  function Rebuild(events: seq<Event>): Result<Bundle> {
    if !ValidSource(events) then Err(InvalidValue)
    else
      var unordered :- AttemptsOf(StreamsOfKind(events, StreamIds(events), AttemptStream));
      var attempts := Sort(unordered, ByAttempt());
      var novelties :- SingleStream(events, NoveltyStream);
      var novelty :- Novelty(novelties);
      var artifactEvents :- SingleStream(events, ArtifactStream);
      var artifacts :- Artifacts(artifactEvents);
      Ok(Bundle(attempts, LearningFor(attempts, Ascending(Users(attempts))),
                IndexOver(novelties, novelty), IndexOver(artifactEvents, artifacts), |events|))
  }
}

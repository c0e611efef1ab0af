/** Runs of calls on the attempt store: what is accepted, what stays readable, what the records hold. */
module AttemptRuns {
  import opened Prelude
  import opened LogicGrid
  import opened Play
  import opened Normalization
  import opened AttemptStore
  import opened AttemptTables
  import opened AttemptCalls
  import AttemptEvidence
  import PlayRuns
  import Projections
  import NormalizationTheorems

  // ----- the record validator never refuses a checked call -----

  lemma {:induction false} ProjectionIsBuilt(source: Record)
    ensures Projections.AttemptOf(Normalized(source)).Ok?
  {
    NormalizationTheorems.NormalizedIsRebuilt(source);
  }

  /** Building fails only on inadmissible observations or repeated events: the normalized projection is
      always rebuilt. */
  lemma {:induction false} BuildsWhenAdmissible(user: UserId, started: int, session: Session,
      observations: seq<Observed<PlayEvent>>, evaluations: seq<Link<Submission>>, hints: seq<Link<Request>>)
    ensures var r := BuildRecord(user, started, session, observations, evaluations, hints);
      r.Ok? <==> AttemptEvidence.BuildEvidence(session.events).Ok? && Admissible(session, observations, evaluations, hints)
    ensures var r := BuildRecord(user, started, session, observations, evaluations, hints); r.Ok? ==>
      && (forall o :: o in observations ==> o.time <= r.value.updated) && (forall o :: o in evaluations ==> o.time <= r.value.updated)
      && (forall o :: o in hints ==> o.time <= r.value.updated)
  {
    hide Normalized, Projections.AttemptOf, Admissible, Source, AttemptEvidence.BuildEvidence;
    ProjectionIsBuilt(Source(user, started, session, observations, evaluations, hints));
    var r := BuildRecord(user, started, session, observations, evaluations, hints);
    if r.Ok? {
      forall o | o in observations ensures o.time <= r.value.updated {
        var i :| 0 <= i < |observations| && observations[i] == o;
        assert Times(observations)[i] == o.time;
      }
      forall o | o in evaluations ensures o.time <= r.value.updated {
        var i :| 0 <= i < |evaluations| && evaluations[i] == o;
        assert LinkTimes(evaluations)[i] == o.time;
      }
      forall o | o in hints ensures o.time <= r.value.updated {
        var i :| 0 <= i < |hints| && hints[i] == o;
        assert LinkTimes(hints)[i] == o.time;
      }
    }
  }

  lemma {:induction false} LaterStaysChronological(times: seq<int>, time: int)
    requires Chronological(times) && forall i :: 0 <= i < |times| ==> times[i] <= time
    ensures Chronological(times + [time])
  {
  }

  lemma {:induction false} MoreEventsMentioned(events: seq<PlayEvent>, more: seq<PlayEvent>, id: EventId)
    requires |events| <= |more| && more[..|events|] == events && Mentions(events, id)
    ensures Mentions(more, id)
  {
    var e :| e in events && e.body.id == id;
    assert e in more[..|events|];
    assert e in more;
  }

  /** An append with a replayed session is persisted exactly when it continues the head by one event, not back in time. */
  lemma {:induction false} ContinuedExactly(archive: Archive, spec: GridSpec, session: Session, time: int)
    requires Shaped(spec) && Sound(archive) && session.view.attempt in archive
    requires Replay(spec, session.view.attempt, session.view.mode, session.events) == Ok(session)
    requires ReadBack(archive, spec, session.view.attempt).Ok?
    ensures var current := archive[session.view.attempt].record;
      var n := |current.session.events|;
      Continued(current, session, time).Ok? <==>
        |session.events| == n + 1 && session.events[..n] == current.session.events && time >= current.updated
  {
    hide BuildRecord, Replay, Shaped, Linked, Chronological, Mentions, AttemptEvidence.BuildEvidence, Latest;
    var a := session.view.attempt;
    var current := archive[a].record;
    var n := |current.session.events|;
    assert SoundEntry(a, current);
    BuiltFrom(current.user, current.started, current.session, current.observations, current.evaluations, current.hints);
    BuildsWhenAdmissible(current.user, current.started, current.session, current.observations, current.evaluations, current.hints);
    ReplayedIsSealed(spec, a, session.view.mode, session.events);
    ReplayedIsSealed(spec, a, archive[a].mode, current.session.events);
    if |session.events| == n + 1 && session.events[..n] == current.session.events && time >= current.updated {
      var more := current.observations + [Observed(session.events[n], time)];
      assert Times(more) == Times(current.observations) + [time];
      assert forall i :: 0 <= i < n ==> current.observations[i] in current.observations;
      LaterStaysChronological(Times(current.observations), time);
      forall i | 0 <= i < |session.events| ensures more[i].content == session.events[i] {
        if i < n {
          assert session.events[..n][i] == session.events[i];
        }
      }
      forall o | o in current.evaluations ensures Mentions(session.events, o.content.event) {
        MoreEventsMentioned(current.session.events, session.events, o.content.event);
      }
      AttemptEvidence.DistinctEventsStand(session.events);
      BuildsWhenAdmissible(current.user, current.started, session, more, current.evaluations, current.hints);
    }
  }

  /** An evaluation is persisted exactly when it names the current session, one of its events, and does not go back in time. */
  lemma {:induction false} JudgedExactly(archive: Archive, s: Submission, time: int)
    requires Sound(archive) && s.attempt in archive
    ensures var current := archive[s.attempt].record;
      Judged(current, s, time).Ok? <==>
        && s.revision == current.session.view.revision && s.session == current.session
        && Mentions(current.session.events, s.event) && time >= current.updated
  {
    hide BuildRecord, Linked, Chronological, Mentions, AttemptEvidence.BuildEvidence;
    var current := archive[s.attempt].record;
    assert SoundEntry(s.attempt, current);
    BuiltFrom(current.user, current.started, current.session, current.observations, current.evaluations, current.hints);
    BuildsWhenAdmissible(current.user, current.started, current.session, current.observations, current.evaluations, current.hints);
    if s.revision == current.session.view.revision && Mentions(current.session.events, s.event) && time >= current.updated {
      var link := Link(s, time, LastLink(current.evaluations));
      var more := current.evaluations + [link];
      assert LinkTimes(more) == LinkTimes(current.evaluations) + [time];
      assert forall i :: 0 <= i < |current.evaluations| ==> current.evaluations[i] in current.evaluations;
      LaterStaysChronological(LinkTimes(current.evaluations), time);
      NextLinkIsNew(current.evaluations, link);
      BuildsWhenAdmissible(current.user, current.started, current.session, current.observations, more, current.hints);
    }
  }

  /** A hint result is persisted exactly when it names the current session and does not go back in time. */
  lemma {:induction false} AdvisedExactly(archive: Archive, q: Request, time: int)
    requires Sound(archive) && q.attempt in archive
    ensures var current := archive[q.attempt].record;
      Advised(current, q, time).Ok? <==>
        q.revision == current.session.view.revision && q.session == current.session && time >= current.updated
  {
    hide BuildRecord, Linked, Chronological, Mentions, AttemptEvidence.BuildEvidence;
    var current := archive[q.attempt].record;
    assert SoundEntry(q.attempt, current);
    BuiltFrom(current.user, current.started, current.session, current.observations, current.evaluations, current.hints);
    BuildsWhenAdmissible(current.user, current.started, current.session, current.observations, current.evaluations, current.hints);
    if q.revision == current.session.view.revision && time >= current.updated {
      var link := Link(q, time, LastLink(current.hints));
      var more := current.hints + [link];
      assert LinkTimes(more) == LinkTimes(current.hints) + [time];
      assert forall i :: 0 <= i < |current.hints| ==> current.hints[i] in current.hints;
      LaterStaysChronological(LinkTimes(current.hints), time);
      NextLinkIsNew(current.hints, link);
      BuildsWhenAdmissible(current.user, current.started, current.session, current.observations, current.evaluations, more);
    }
  }

  /** Exactly the canonical one-event continuations of a readable attempt, with a new event identifier and
      no step back in time, are appended. */
  lemma {:induction false} AppendAcceptedExactly(archive: Archive, spec: GridSpec, session: Session, time: int)
    requires Shaped(spec) && Sound(archive)
    ensures var a := session.view.attempt;
      Appended(archive, spec, session, time).Ok? <==>
        && Replay(spec, a, session.view.mode, session.events) == Ok(session)
        && a in archive && ReadBack(archive, spec, a).Ok?
        && var current := archive[a].record;
        && |session.events| == |current.session.events| + 1 && session.events[..|current.session.events|] == current.session.events
        && time >= current.updated && !KnownEvent(archive, session.events[|current.session.events|].body.id)
  {
    hide Replay, Shaped, Sound, KnownEvent, BuildRecord;
    var a := session.view.attempt;
    var canonical := Replay(spec, a, session.view.mode, session.events) == Ok(session);
    if a in archive && canonical && ReadBack(archive, spec, a).Ok? {
      ContinuedExactly(archive, spec, session, time);
    }
  }

  /** Exactly the evaluations of the current session of a readable attempt, about one of its events, are recorded. */
  lemma {:induction false} EvaluationAcceptedExactly(archive: Archive, spec: GridSpec, s: Submission, time: int)
    requires Shaped(spec) && Sound(archive)
    ensures Evaluated(archive, spec, s, time).Ok? <==>
      && s.attempt in archive && ReadBack(archive, spec, s.attempt).Ok?
      && var current := archive[s.attempt].record;
      && s.revision == current.session.view.revision && s.session == current.session
      && Mentions(current.session.events, s.event) && time >= current.updated
  {
    hide Replay, Shaped, Sound, Judged;
    if s.attempt in archive {
      JudgedExactly(archive, s, time);
    }
  }

  /** Exactly the hint results for the current session of a readable attempt that has an event are recorded. */
  lemma {:induction false} HintAcceptedExactly(archive: Archive, spec: GridSpec, q: Request, time: int)
    requires Shaped(spec) && Sound(archive)
    ensures Hinted(archive, spec, q, time).Ok? <==>
      && q.attempt in archive && ReadBack(archive, spec, q.attempt).Ok?
      && var current := archive[q.attempt].record;
      && q.revision == current.session.view.revision && q.session == current.session
      && time >= current.updated && current.session.events != []
  {
    hide Replay, Shaped, Sound, BuildRecord;
    if q.attempt in archive {
      var current := archive[q.attempt].record;
      AdvisedExactly(archive, q, time);
      if Advised(current, q, time).Ok? {
        AdviceIsSound(archive, q, time);
      }
    }
  }

  // ----- the mode -----

  /** The last event of a replayed stream commits to the view it leads to. */
  lemma {:induction false} LastEventShowsView(spec: GridSpec, a: AttemptId, mode: Mode, events: seq<PlayEvent>)
    requires Shaped(spec) && events != [] && Replay(spec, a, mode, events).Ok?
    ensures events[|events| - 1].body.stateHash == OfView(Replay(spec, a, mode, events).value.view)
  {
    hide Step, Decide;
    var n := |events| - 1;
    var earlier := Replay(spec, a, mode, events[..n]).value;
    var e := events[n];
    PlayRuns.StepRecords(earlier, spec, e.body.id, e.body.action);
  }

  lemma {:induction false} EventsFixMode(spec: GridSpec, a: AttemptId, mode: Mode, other: Mode, events: seq<PlayEvent>)
    requires Shaped(spec) && events != []
    requires Replay(spec, a, mode, events).Ok? && Replay(spec, a, other, events).Ok?
    ensures mode == other
  {
    hide Replay;
    LastEventShowsView(spec, a, mode, events);
    LastEventShowsView(spec, a, other, events);
    PlayRuns.ReplayedIsRun(spec, a, mode, events, Replay(spec, a, mode, events).value);
    PlayRuns.ReplayedIsRun(spec, a, other, events, Replay(spec, a, other, events).value);
  }

  /** After an accepted append the attempt can be read exactly when the session keeps the stream's mode. */
  lemma {:induction false} AppendStaysReadable(archive: Archive, spec: GridSpec, session: Session, time: int)
    requires Shaped(spec) && Sound(archive) && Appended(archive, spec, session, time).Ok?
    ensures var a := session.view.attempt;
      ReadBack(Appended(archive, spec, session, time).value, spec, a).Ok? <==> session.view.mode == archive[a].mode
    ensures session.view.mode != archive[session.view.attempt].mode ==> archive[session.view.attempt].record.session.events == []
  {
    hide Replay, Continued, KnownEvent, Shaped, Sound;
    var a := session.view.attempt;
    var mode := archive[a].mode;
    var current := archive[a].record;
    ContinuationIsSound(archive, spec, session, time);
    ContinuedExactly(archive, spec, session, time);
    if Replay(spec, a, mode, session.events) == Ok(session) {
      PlayRuns.ReplayedIsRun(spec, a, mode, session.events, session);
    }
    if current.session.events != [] {
      ReplayPrefix(spec, a, session.view.mode, session.events);
      EventsFixMode(spec, a, mode, session.view.mode, current.session.events);
    }
  }

  lemma {:induction false} ReplayPrefix(spec: GridSpec, a: AttemptId, mode: Mode, events: seq<PlayEvent>)
    requires Shaped(spec) && events != [] && Replay(spec, a, mode, events).Ok?
    ensures Replay(spec, a, mode, events[..|events| - 1]).Ok?
  {
  }

  lemma {:induction false} StartsInAnyMode(spec: GridSpec, a: AttemptId, mode: Mode, other: Mode)
    requires Shaped(spec) && Start(spec, a, mode).Ok?
    ensures Start(spec, a, other) == Ok(Start(spec, a, mode).value.(view := Start(spec, a, mode).value.view.(mode := other)))
    ensures Start(spec, a, other).value.events == [] && Start(spec, a, other).value.view.status == Active
  {
  }

  lemma {:induction false} PauseIsRecorded(spec: GridSpec, start: Session, id: EventId)
    requires Shaped(spec) && WellShaped(start.view) && start.view.revision == spec.puzzle.revision
    requires start.events == [] && start.view.status == Active
    ensures var r := Step(start, spec, id, PauseSession);
      && r.Ok? && |r.value.events| == 1 && r.value.events[0].body.id == id
      && r.value.view.attempt == start.view.attempt && r.value.view.mode == start.view.mode
  {
    hide MoveEvents;
  }

  /** Another mode does get in: the first append to an empty attempt does not compare modes. */
  lemma {:induction false} ModeCanBeLost(archive: Archive, spec: GridSpec, a: AttemptId, other: Mode, id: EventId,
      time: int) returns (session: Session)
    requires Shaped(spec) && Sound(archive) && a in archive && ReadBack(archive, spec, a).Ok?
    requires archive[a].record.session.events == [] && other != archive[a].mode
    requires !KnownEvent(archive, id) && time >= archive[a].record.updated
    ensures session.view.attempt == a && Appended(archive, spec, session, time).Ok?
    ensures ReadBack(Appended(archive, spec, session, time).value, spec, a) == Err(StreamIntegrity)
  {
    hide Sound, KnownEvent, Continued, Shaped, Step, WellShaped;
    StartsInAnyMode(spec, a, archive[a].mode, other);
    var start := Start(spec, a, other).value;
    PauseIsRecorded(spec, start, id);
    session := Step(start, spec, id, PauseSession).value;
    PlayRuns.ReplayAppends(spec, a, other, start, id, PauseSession);
    assert session.events[..0] == archive[a].record.session.events;
    ContinuedExactly(archive, spec, session, time);
    AppendStaysReadable(archive, spec, session, time);
  }

  // ----- runs -----

  datatype Call =
    | Create(spec: GridSpec, session: Session, user: UserId, time: int)
    | Append(spec: GridSpec, session: Session, time: int)
    | RecordEvaluation(spec: GridSpec, submission: Submission, time: int)
    | RecordHint(spec: GridSpec, request: Request, time: int)
  {
    function Attempt(): AttemptId {
      match this
      case Create(_, session, _, _) => session.view.attempt
      case Append(_, session, _) => session.view.attempt
      case RecordEvaluation(_, submission, _) => submission.attempt
      case RecordHint(_, request, _) => request.attempt
    }
  }

  ghost function Answer(archive: Archive, call: Call): Result<Archive>
    requires Shaped(call.spec)
  {
    match call
    case Create(spec, session, user, time) => Created(archive, spec, session, user, time)
    case Append(spec, session, time) => Appended(archive, spec, session, time)
    case RecordEvaluation(spec, submission, time) => Evaluated(archive, spec, submission, time)
    case RecordHint(spec, request, time) => Hinted(archive, spec, request, time)
  }

  predicate AllShaped(calls: seq<Call>) {
    forall i :: 0 <= i < |calls| ==> Shaped(calls[i].spec)
  }

  /** Accepted calls take effect in order, refused ones have none. */
  ghost function After(calls: seq<Call>): Archive
    requires AllShaped(calls)
  {
    if calls == [] then map[]
    else
      var earlier := After(calls[..|calls| - 1]);
      var answer := Answer(earlier, calls[|calls| - 1]);
      if answer.Ok? then answer.value else earlier
  }

  lemma {:induction false} AnswerKeepsSound(archive: Archive, call: Call)
    requires Shaped(call.spec) && Sound(archive) && Answer(archive, call).Ok?
    ensures Sound(Answer(archive, call).value)
    ensures forall b :: b != call.Attempt() ==> (b in Answer(archive, call).value <==> b in archive)
    ensures forall b :: b != call.Attempt() && b in archive ==> Answer(archive, call).value[b] == archive[b]
  {
    hide BuildRecord, Replay, Sound, Shaped, KnownEvent, Judged, Advised;
    match call
    case Create(spec, session, user, time) => CreationIsSound(archive, spec, session, user, time);
    case Append(spec, session, time) => ContinuationIsSound(archive, spec, session, time);
    case RecordEvaluation(spec, submission, time) => JudgementIsSound(archive, submission, time);
    case RecordHint(spec, request, time) => AdviceIsSound(archive, request, time);
  }

  /** Whatever is called, every record stays what its observations are built into. */
  lemma {:induction false} AfterIsSound(calls: seq<Call>)
    requires AllShaped(calls)
    ensures Sound(After(calls))
  {
    hide Sound, Answer, Shaped;
    if calls == [] {
      NothingIsSound();
    } else {
      var n := |calls| - 1;
      AfterIsSound(calls[..n]);
      if Answer(After(calls[..n]), calls[n]).Ok? {
        AnswerKeepsSound(After(calls[..n]), calls[n]);
      }
    }
  }

  lemma {:induction false} NothingIsSound()
    ensures Sound(map[])
  {
  }

  /** Calls about the attempt use one puzzle, and their sessions one mode. */
  predicate Keeps(call: Call, a: AttemptId, spec: GridSpec, mode: Mode) {
    call.Attempt() == a ==> call.spec == spec && ((call.Create? || call.Append?) ==> call.session.view.mode == mode)
  }

  /** As long as its sessions keep their mode, an attempt is always readable. */
  lemma {:induction false} ReadableThroughout(calls: seq<Call>, a: AttemptId, spec: GridSpec, mode: Mode)
    requires AllShaped(calls) && Shaped(spec)
    requires forall i :: 0 <= i < |calls| ==> Keeps(calls[i], a, spec, mode)
    ensures ReadBack(After(calls), spec, a).Ok?
    ensures a in After(calls) ==> After(calls)[a].mode == mode
  {
    hide Sound, Replay, Shaped, Created, Appended, Evaluated, Hinted;
    if calls != [] {
      var n := |calls| - 1;
      var call := calls[n];
      var archive := After(calls[..n]);
      assert Keeps(call, a, spec, mode);
      ReadableThroughout(calls[..n], a, spec, mode);
      AfterIsSound(calls[..n]);
      var answer := Answer(archive, call);
      if answer.Ok? {
        AnswerKeepsSound(archive, call);
        if call.Attempt() == a {
          AnswerStaysReadable(archive, call, mode);
        }
      }
    }
  }

  lemma {:induction false} AnswerStaysReadable(archive: Archive, call: Call, mode: Mode)
    requires
      && Shaped(call.spec)
      && Sound(archive)
      && Answer(archive, call).Ok?
      && Keeps(call, call.Attempt(), call.spec, mode)
    requires ReadBack(archive, call.spec, call.Attempt()).Ok?
    requires call.Attempt() in archive ==> archive[call.Attempt()].mode == mode
    ensures ReadBack(Answer(archive, call).value, call.spec, call.Attempt()).Ok?
    ensures call.Attempt() in Answer(archive, call).value && Answer(archive, call).value[call.Attempt()].mode == mode
  {
    hide BuildRecord, Replay, Sound, Shaped, KnownEvent, Continued, Judged, Advised;
    match call
    case Create(spec, session, user, time) => CreationIsSound(archive, spec, session, user, time);
    case Append(spec, session, time) => AppendStaysReadable(archive, spec, session, time);
    case RecordEvaluation(spec, submission, time) => JudgementIsSound(archive, submission, time);
    case RecordHint(spec, request, time) => AdviceIsSound(archive, request, time);
  }

  // ----- call order -----

  /** The observations accepted for one attempt, in call order. */
  ghost function Observations(calls: seq<Call>, a: AttemptId): seq<Observed<PlayEvent>>
    requires AllShaped(calls)
  {
    if calls == [] then []
    else
      var n := |calls| - 1;
      var earlier := Observations(calls[..n], a);
      var call := calls[n];
      if call.Attempt() == a && call.Append? && Answer(After(calls[..n]), call).Ok? && call.session.events != []
      then earlier + [Observed(call.session.events[|call.session.events| - 1], call.time)]
      else earlier
  }

  ghost function Evaluations(calls: seq<Call>, a: AttemptId): seq<(Submission, int)>
    requires AllShaped(calls)
  {
    if calls == [] then []
    else
      var n := |calls| - 1;
      var earlier := Evaluations(calls[..n], a);
      var call := calls[n];
      if call.Attempt() == a && call.RecordEvaluation? && Answer(After(calls[..n]), call).Ok?
      then earlier + [(call.submission, call.time)]
      else earlier
  }

  ghost function HintResults(calls: seq<Call>, a: AttemptId): seq<(Request, int)>
    requires AllShaped(calls)
  {
    if calls == [] then []
    else
      var n := |calls| - 1;
      var earlier := HintResults(calls[..n], a);
      var call := calls[n];
      if call.Attempt() == a && call.RecordHint? && Answer(After(calls[..n]), call).Ok?
      then earlier + [(call.request, call.time)]
      else earlier
  }

  function Plain<T>(links: seq<Link<T>>): seq<(T, int)> {
    seq(|links|, i requires 0 <= i < |links| => (links[i].content, links[i].time))
  }

  /** A record holds exactly the accepted observations about its attempt, in call order. */
  lemma {:induction false} RecordsFollowCalls(calls: seq<Call>, a: AttemptId)
    requires AllShaped(calls)
    ensures a in After(calls) ==>
      var record := After(calls)[a].record;
      && record.observations == Observations(calls, a)
      && Plain(record.evaluations) == Evaluations(calls, a)
      && Plain(record.hints) == HintResults(calls, a)
    ensures a !in After(calls) ==> Observations(calls, a) == [] && Evaluations(calls, a) == [] && HintResults(calls, a) == []
  {
    hide Sound, Answer, Shaped, Plain;
    if calls != [] {
      var n := |calls| - 1;
      var call := calls[n];
      var archive := After(calls[..n]);
      RecordsFollowCalls(calls[..n], a);
      AfterIsSound(calls[..n]);
      var answer := Answer(archive, call);
      if answer.Ok? {
        AnswerKeepsSound(archive, call);
        if call.Attempt() == a {
          AnswerExtends(archive, call);
        }
      }
    }
  }

  /** What an accepted call adds to its attempt's record. */
  lemma {:induction false} AnswerExtends(archive: Archive, call: Call)
    requires Shaped(call.spec) && Sound(archive) && Answer(archive, call).Ok?
    ensures var a := call.Attempt();
      var next := Answer(archive, call).value;
      && a in next && (call.Create? <==> a !in archive)
      && (call.Append? ==> call.session.events != [])
      && next[a].record.observations == (if a in archive then archive[a].record.observations else [])
           + (if call.Append? then [Observed(call.session.events[|call.session.events| - 1], call.time)] else [])
      && Plain(next[a].record.evaluations) == (if a in archive then Plain(archive[a].record.evaluations) else [])
           + (if call.RecordEvaluation? then [(call.submission, call.time)] else [])
      && Plain(next[a].record.hints) == (if a in archive then Plain(archive[a].record.hints) else [])
           + (if call.RecordHint? then [(call.request, call.time)] else [])
  {
    hide BuildRecord, Replay, Sound, Shaped, KnownEvent, Judged, Advised;
    match call
    case Create(spec, session, user, time) => CreationIsSound(archive, spec, session, user, time);
    case Append(spec, session, time) => ContinuationIsSound(archive, spec, session, time);
    case RecordEvaluation(spec, submission, time) => JudgementIsSound(archive, submission, time);
    case RecordHint(spec, request, time) => AdviceIsSound(archive, request, time);
  }
}

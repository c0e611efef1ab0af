/** Each call of the attempt store as a function of the tables it finds, and its meaning for the archive. */
module AttemptCalls {
  import opened Prelude
  import opened LogicGrid
  import opened Play
  import opened Normalization
  import opened AttemptStore
  import opened AttemptTables

  // ----- what the calls write -----

  /** `_update_stream`: the owner, the revision, the mode and the start stay as inserted. */
  function Refreshed(row: StreamRow, record: Persisted): StreamRow
    requires record.session.events != []
  {
    var event := record.session.events[|record.session.events| - 1];
    row.(status := record.session.view.status, updated := record.updated, latestSequence := event.body.sequenceNo,
         latestHash := event.hash, session := record.session, record := record)
  }

  function UpdatedStreams(streams: map<AttemptId, StreamRow>, record: Persisted): Result<map<AttemptId, StreamRow>> {
    var a := record.session.view.attempt;
    if record.session.events == [] then Err(NoEvents)
    else if a !in streams then Err(StreamConflict)
    else Ok(streams[a := Refreshed(streams[a], record)])
  }

  /** The record a call returns, and the tables it commits. */
  type Writes = Result<(Persisted, Tables)>

  function CreateWrites(t: Tables, spec: GridSpec, session: Session, user: UserId, time: int): Writes
    requires Shaped(spec)
  {
    var a := session.view.attempt;
    if session.events != [] then Err(StreamConflict)
    else
      var replayed :- Replay(spec, a, session.view.mode, []);
      if replayed != session then Err(StreamIntegrity)
      else
        var record :- BuildRecord(user, time, session, [], [], []);
        if a in t.streams then Err(AttemptExists)
        else Ok((record, t.(streams := t.streams[a := StreamRowOf(session.view.mode, record)])))
  }

  function AppendWrites(t: Tables, spec: GridSpec, session: Session, time: int): Writes
    requires Shaped(spec)
  {
    var a := session.view.attempt;
    var replayed :- Replay(spec, a, session.view.mode, session.events);
    if replayed != session then Err(StreamIntegrity)
    else
      var found :- Read(t, spec, a);
      if found.None? then Err(StreamConflict)
      else
        var record :- Continued(found.value, session, time);
        var row := PlayRowOf(Observed(session.events[|found.value.session.events|], time));
        if PlayCollides(t.plays, a, row) then Err(StreamConflict)
        else
          var streams :- UpdatedStreams(t.streams, record);
          Ok((record, t.(streams := streams, plays := t.plays[(a, row.sequenceNo) := row])))
  }

  function EvaluationWrites(t: Tables, spec: GridSpec, s: Submission, time: int): Writes
    requires Shaped(spec)
  {
    var found :- Read(t, spec, s.attempt);
    if found.None? then Err(StreamConflict)
    else
      var record :- Judged(found.value, s, time);
      var n := |found.value.evaluations|;
      var row := LinkRowOf(Link(s, time, LastLink(found.value.evaluations)));
      if LinkCollides(t.evaluations, s.attempt, n, row) then Err(StreamConflict)
      else
        var streams :- UpdatedStreams(t.streams, record);
        Ok((record, t.(streams := streams, evaluations := t.evaluations[(s.attempt, n) := row])))
  }

  function HintWrites(t: Tables, spec: GridSpec, q: Request, time: int): Writes
    requires Shaped(spec)
  {
    var found :- Read(t, spec, q.attempt);
    if found.None? then Err(StreamConflict)
    else
      var record :- Advised(found.value, q, time);
      var n := |found.value.hints|;
      var row := LinkRowOf(Link(q, time, LastLink(found.value.hints)));
      if LinkCollides(t.hints, q.attempt, n, row) then Err(StreamConflict)
      else
        var streams :- UpdatedStreams(t.streams, record);
        Ok((record, t.(streams := streams, hints := t.hints[(q.attempt, n) := row])))
  }

  // ----- what that means for the archive -----

  lemma {:induction false} StreamsAreArchived(t: Tables, archive: Archive, a: AttemptId)
    requires Holds(t, archive)
    ensures a in t.streams <==> a in archive
    ensures a in archive ==> t.streams[a] == StreamRowOf(archive[a].mode, archive[a].record)
  {
    assert a in t.streams.Keys <==> a in archive.Keys;
  }

  lemma {:induction false} CreationIsHeld(t: Tables, archive: Archive, spec: GridSpec, entry: Entry, user: UserId,
      time: int)
    requires Shaped(spec) && Sound(archive) && Holds(t, archive)
    requires var session := entry.record.session;
      && session.events == [] && session.view.attempt !in archive
      && Replay(spec, session.view.attempt, session.view.mode, []) == Ok(session)
      && BuildRecord(user, time, session, [], [], []) == Ok(entry.record)
    ensures var a := entry.record.session.view.attempt;
      && Sound(archive[a := entry])
      && Holds(t.(streams := t.streams[a := StreamRowOf(entry.mode, entry.record)]), archive[a := entry])
  {
    hide BuildRecord, Replay, Tabulates, PlayRows, LinkRows;
    var record := entry.record;
    var a := record.session.view.attempt;
    BuiltFrom(user, time, record.session, [], [], []);
    assert SoundEntry(a, record);
    AddedIsSound(archive, a, entry);
    NoRows(entry);
    TabulatesSame(t.plays, archive, PlayRows, a, entry);
    TabulatesSame(t.evaluations, archive, (e: Entry) => LinkRows(e.record.evaluations), a, entry);
    TabulatesSame(t.hints, archive, (e: Entry) => LinkRows(e.record.hints), a, entry);
  }

  lemma {:induction false} NoRows(entry: Entry)
    requires entry.record.observations == [] && entry.record.evaluations == [] && entry.record.hints == []
    ensures PlayRows(entry) == [] && LinkRows(entry.record.evaluations) == [] && LinkRows(entry.record.hints) == []
  {
  }

  lemma {:induction false} LinkRowsExtend<T>(links: seq<Link<T>>, link: Link<T>)
    ensures LinkRows(links + [link]) == LinkRows(links) + [LinkRowOf(link)]
  {
  }

  lemma {:induction false} SameRows(entry: Entry, next: Entry)
    requires next.record.observations == entry.record.observations
    ensures PlayRows(next) == PlayRows(entry)
  {
  }

  /** What a written record keeps of the one it replaces. */
  predicate Succeeds(record: Persisted, current: Persisted) {
    && record.user == current.user && record.started == current.started
    && record.session.view.revision == current.session.view.revision
    && record.session.view.attempt == current.session.view.attempt
  }

  lemma {:induction false} ContinuationIsSound(archive: Archive, spec: GridSpec, session: Session, time: int)
    requires Shaped(spec) && Sound(archive) && session.view.attempt in archive
    requires Replay(spec, session.view.attempt, session.view.mode, session.events) == Ok(session)
    requires ReadBack(archive, spec, session.view.attempt).Ok?
    requires Continued(archive[session.view.attempt].record, session, time).Ok?
    ensures var a := session.view.attempt;
      var current := archive[a].record;
      var record := Continued(current, session, time).value;
      var n := |current.session.events|;
      var o := Observed(session.events[n], time);
      && Succeeds(record, current) && record.session == session && |current.observations| == n
      && record.observations == current.observations + [o] && record.evaluations == current.evaluations && record.hints == current.hints
      && o.content.body.sequenceNo == n && o.content.hash == OfPlayEvent(o.content.body)
      && (!KnownEvent(archive, o.content.body.id) ==> Sound(archive[a := archive[a].(record := record)]))
  {
    hide BuildRecord, Replay, KnownEvent, Shaped;
    var a := session.view.attempt;
    var current := archive[a].record;
    var record := Continued(current, session, time).value;
    var o := Observed(session.events[|current.session.events|], time);
    assert SoundEntry(a, current);
    BuiltFrom(current.user, current.started, current.session, current.observations, current.evaluations, current.hints);
    BuiltFrom(current.user, current.started, session, current.observations + [o], current.evaluations, current.hints);
    ReplayedIsSealed(spec, a, session.view.mode, session.events);
    ReplayedIsSealed(spec, a, archive[a].mode, current.session.events);
    assert SoundEntry(a, record);
    if !KnownEvent(archive, o.content.body.id) {
      ExtendedIsSound(archive, a, archive[a].(record := record), o);
    }
  }

  lemma {:induction false} JudgementIsSound(archive: Archive, s: Submission, time: int)
    requires Sound(archive) && s.attempt in archive && Judged(archive[s.attempt].record, s, time).Ok?
    ensures var a := s.attempt;
      var current := archive[a].record;
      var record := Judged(current, s, time).value;
      && Succeeds(record, current) && record.session == current.session && current.session.view.attempt == a
      && current.session.events != [] && record.observations == current.observations && record.hints == current.hints
      && record.evaluations == current.evaluations + [Link(s, time, LastLink(current.evaluations))]
      && Sound(archive[a := archive[a].(record := record)])
  {
    hide BuildRecord;
    var a := s.attempt;
    var current := archive[a].record;
    var record := Judged(current, s, time).value;
    var link := Link(s, time, LastLink(current.evaluations));
    assert SoundEntry(a, current);
    BuiltFrom(current.user, current.started, current.session, current.observations, current.evaluations, current.hints);
    BuiltFrom(current.user, current.started, current.session, current.observations, current.evaluations + [link], current.hints);
    assert SoundEntry(a, record);
    ReplacedIsSound(archive, a, archive[a].(record := record));
  }

  lemma {:induction false} AdviceIsSound(archive: Archive, q: Request, time: int)
    requires Sound(archive) && q.attempt in archive && Advised(archive[q.attempt].record, q, time).Ok?
    ensures var a := q.attempt;
      var current := archive[a].record;
      var record := Advised(current, q, time).value;
      && Succeeds(record, current) && record.session == current.session && current.session.view.attempt == a
      && record.observations == current.observations && record.evaluations == current.evaluations
      && record.hints == current.hints + [Link(q, time, LastLink(current.hints))]
      && Sound(archive[a := archive[a].(record := record)])
  {
    hide BuildRecord;
    var a := q.attempt;
    var current := archive[a].record;
    var record := Advised(current, q, time).value;
    var link := Link(q, time, LastLink(current.hints));
    assert SoundEntry(a, current);
    BuiltFrom(current.user, current.started, current.session, current.observations, current.evaluations, current.hints);
    BuiltFrom(current.user, current.started, current.session, current.observations, current.evaluations, current.hints + [link]);
    assert SoundEntry(a, record);
    ReplacedIsSound(archive, a, archive[a].(record := record));
  }

  lemma {:induction false} CreationIsSound(archive: Archive, spec: GridSpec, session: Session, user: UserId, time: int)
    requires Shaped(spec) && Sound(archive) && Created(archive, spec, session, user, time).Ok?
    ensures var a := session.view.attempt;
      var next := Created(archive, spec, session, user, time).value;
      && a !in archive && next == archive[a := next[a]] && next[a].mode == session.view.mode
      && next[a].record.session == session && next[a].record.observations == []
      && next[a].record.evaluations == [] && next[a].record.hints == []
      && Sound(next)
  {
    hide BuildRecord, Replay;
    BuiltFrom(user, time, session, [], [], []);
    var a := session.view.attempt;
    var next := Created(archive, spec, session, user, time).value;
    assert SoundEntry(a, next[a].record);
    AddedIsSound(archive, a, next[a]);
  }

  /** An event that continues its attempt is refused exactly when its identifier is known, and otherwise held. */
  lemma {:induction false} AppendIsHeld(t: Tables, archive: Archive, spec: GridSpec, session: Session, time: int,
      record: Persisted, o: Observed<PlayEvent>)
    requires Shaped(spec) && Sound(archive) && Holds(t, archive) && session.view.attempt in archive
    requires Replay(spec, session.view.attempt, session.view.mode, session.events) == Ok(session)
    requires ReadBack(archive, spec, session.view.attempt).Ok?
    requires Continued(archive[session.view.attempt].record, session, time) == Ok(record)
    requires o == Observed(session.events[|archive[session.view.attempt].record.session.events|], time)
    ensures var a := session.view.attempt;
      var n := |archive[a].record.session.events|;
      var next := archive[a := archive[a].(record := record)];
      && a in t.streams && t.streams[a] == StreamRowOf(archive[a].mode, archive[a].record)
      && Succeeds(record, archive[a].record) && record.session == session && PlayRowOf(o).sequenceNo == n
      && (PlayCollides(t.plays, a, PlayRowOf(o)) <==> KnownEvent(archive, o.content.body.id))
      && (!KnownEvent(archive, o.content.body.id) ==> Sound(next) && Holds(
            Tables(t.streams[a := StreamRowOf(archive[a].mode, record)], t.plays[(a, n) := PlayRowOf(o)], t.evaluations, t.hints), next))
  {
    hide BuildRecord, Replay, Tabulates, LinkRows, PlayCollides, KnownEvent, Shaped, Sound, SoundEntry,
      NumberedAndSealed;
    var a := session.view.attempt;
    var entry := archive[a];
    var current := entry.record;
    var next := entry.(record := record);
    ContinuationIsSound(archive, spec, session, time);
    PlayCollisionMeansKnown(t, archive, a, o);
    assert PlayRows(next) == PlayRows(entry) + [PlayRowOf(o)];
    TabulatesMore(t.plays, archive, PlayRows, a, next, PlayRowOf(o));
    TabulatesSame(t.evaluations, archive, (e: Entry) => LinkRows(e.record.evaluations), a, next);
    TabulatesSame(t.hints, archive, (e: Entry) => LinkRows(e.record.hints), a, next);
  }

  lemma {:induction false} EvaluationIsHeld(t: Tables, archive: Archive, spec: GridSpec, s: Submission, time: int)
    requires Shaped(spec) && Sound(archive) && Holds(t, archive)
    requires ReadBack(archive, spec, s.attempt).Ok? && ReadBack(archive, spec, s.attempt).value.Some?
    requires Judged(archive[s.attempt].record, s, time).Ok?
    ensures var a := s.attempt;
      var current := archive[a].record;
      var record := Judged(current, s, time).value;
      var row := LinkRowOf(Link(s, time, LastLink(current.evaluations)));
      var n := |current.evaluations|;
      var next := archive[a := archive[a].(record := record)];
      && a in t.streams && t.streams[a] == StreamRowOf(archive[a].mode, current)
      && Succeeds(record, current) && record.session == current.session && current.session.view.attempt == a
      && current.session.events != []
      && !LinkCollides(t.evaluations, a, n, row)
      && Sound(next)
      && Holds(Tables(t.streams[a := StreamRowOf(archive[a].mode, record)], t.plays,
                      t.evaluations[(a, n) := row], t.hints), next)
  {
    hide BuildRecord, Replay, Tabulates, LinkRowOf, LinkRows, PlayRows, LinkCollides, Shaped, Judged, Sound;
    var a := s.attempt;
    var entry := archive[a];
    var current := entry.record;
    var link := Link(s, time, LastLink(current.evaluations));
    var next := entry.(record := Judged(current, s, time).value);
    JudgementIsSound(archive, s, time);
    EvaluationIsNew(t, archive, link);
    SameRows(entry, next);
    LinkRowsExtend(current.evaluations, link);
    TabulatesSame(t.plays, archive, PlayRows, a, next);
    TabulatesMore(t.evaluations, archive, (e: Entry) => LinkRows(e.record.evaluations), a, next, LinkRowOf(link));
    TabulatesSame(t.hints, archive, (e: Entry) => LinkRows(e.record.hints), a, next);
  }

  lemma {:induction false} HintIsHeld(t: Tables, archive: Archive, spec: GridSpec, q: Request, time: int)
    requires Shaped(spec) && Sound(archive) && Holds(t, archive)
    requires ReadBack(archive, spec, q.attempt).Ok? && ReadBack(archive, spec, q.attempt).value.Some?
    requires Advised(archive[q.attempt].record, q, time).Ok?
    ensures var a := q.attempt;
      var current := archive[a].record;
      var record := Advised(current, q, time).value;
      var row := LinkRowOf(Link(q, time, LastLink(current.hints)));
      var n := |current.hints|;
      var next := archive[a := archive[a].(record := record)];
      && a in t.streams && t.streams[a] == StreamRowOf(archive[a].mode, current)
      && Succeeds(record, current) && record.session == current.session && current.session.view.attempt == a
      && !LinkCollides(t.hints, a, n, row)
      && Sound(next)
      && Holds(Tables(t.streams[a := StreamRowOf(archive[a].mode, record)], t.plays,
                      t.evaluations, t.hints[(a, n) := row]), next)
  {
    hide BuildRecord, Replay, Tabulates, LinkRowOf, LinkRows, PlayRows, LinkCollides, Shaped, Advised, Sound;
    var a := q.attempt;
    var entry := archive[a];
    var current := entry.record;
    var link := Link(q, time, LastLink(current.hints));
    var next := entry.(record := Advised(current, q, time).value);
    AdviceIsSound(archive, q, time);
    HintIsNew(t, archive, link);
    SameRows(entry, next);
    LinkRowsExtend(current.hints, link);
    TabulatesSame(t.plays, archive, PlayRows, a, next);
    TabulatesSame(t.evaluations, archive, (e: Entry) => LinkRows(e.record.evaluations), a, next);
    TabulatesMore(t.hints, archive, (e: Entry) => LinkRows(e.record.hints), a, next, LinkRowOf(link));
  }

  /** On tables that hold an archive a call answers as the archive's function does, and what it writes holds
      the archive that function gives. */
  ghost predicate Refines(w: Writes, expected: Result<Archive>, a: AttemptId) {
    match expected
    case Err(error) => w == Err(error)
    case Ok(next) =>
      a in next && w.Ok? && w.value.0 == next[a].record && Sound(next) && Holds(w.value.1, next)
  }

  lemma {:induction false} HeldIsRead(t: Tables, archive: Archive, spec: GridSpec, a: AttemptId)
    requires Shaped(spec) && Sound(archive) && Holds(t, archive)
    ensures Read(t, spec, a) == ReadBack(archive, spec, a)
    ensures a in t.streams <==> a in archive
  {
    hide Read, SoundEntry;
    StreamsAreArchived(t, archive, a);
    HoldsEachAttempt(t, archive, a);
    ReadIsReadBack(t, archive, spec, a);
  }

  lemma {:induction false} RefreshedIsWhole(t: Tables, archive: Archive, a: AttemptId, record: Persisted)
    requires a in archive && a in t.streams && t.streams[a] == StreamRowOf(archive[a].mode, archive[a].record)
    requires Succeeds(record, archive[a].record) && record.session.view.attempt == a && record.session.events != []
    ensures UpdatedStreams(t.streams, record) == Ok(t.streams[a := StreamRowOf(archive[a].mode, record)])
  {
  }

  lemma {:induction false} CreateRefines(t: Tables, archive: Archive, spec: GridSpec, session: Session, user: UserId,
      time: int)
    requires Shaped(spec) && Sound(archive) && Holds(t, archive)
    ensures Refines(CreateWrites(t, spec, session, user, time), Created(archive, spec, session, user, time), session.view.attempt)
  {
    hide BuildRecord, Replay, Sound, Holds, Shaped, StreamRowOf;
    StreamsAreArchived(t, archive, session.view.attempt);
    var expected := Created(archive, spec, session, user, time);
    if expected.Ok? {
      BuiltFrom(user, time, session, [], [], []);
      CreationIsHeld(t, archive, spec, expected.value[session.view.attempt], user, time);
    }
  }

  lemma {:induction false} AppendRefines(t: Tables, archive: Archive, spec: GridSpec, session: Session, time: int)
    requires Shaped(spec) && Sound(archive) && Holds(t, archive)
    ensures Refines(AppendWrites(t, spec, session, time), Appended(archive, spec, session, time), session.view.attempt)
  {
    hide BuildRecord, Replay, Sound, Holds, Shaped, PlayCollides, KnownEvent, PlayRowOf, Read, StreamRowOf,
      UpdatedStreams;
    var a := session.view.attempt;
    HeldIsRead(t, archive, spec, a);
    var canonical := Replay(spec, a, session.view.mode, session.events) == Ok(session);
    if canonical && a in archive && ReadBack(archive, spec, a).Ok? {
      var current := archive[a].record;
      var continued := Continued(current, session, time);
      if continued.Ok? {
        var o := Observed(session.events[|current.session.events|], time);
        AppendIsHeld(t, archive, spec, session, time, continued.value, o);
        RefreshedIsWhole(t, archive, a, continued.value);
      }
    }
  }

  lemma {:induction false} EvaluationRefines(t: Tables, archive: Archive, spec: GridSpec, s: Submission, time: int)
    requires Shaped(spec) && Sound(archive) && Holds(t, archive)
    ensures Refines(EvaluationWrites(t, spec, s, time), Evaluated(archive, spec, s, time), s.attempt)
  {
    hide BuildRecord, Replay, Sound, Holds, Shaped, LinkCollides, Read, StreamRowOf, UpdatedStreams, LinkRowOf, Judged;
    HeldIsRead(t, archive, spec, s.attempt);
    if s.attempt in archive && ReadBack(archive, spec, s.attempt).Ok? {
      var judged := Judged(archive[s.attempt].record, s, time);
      if judged.Ok? {
        EvaluationIsHeld(t, archive, spec, s, time);
        RefreshedIsWhole(t, archive, s.attempt, judged.value);
      }
    }
  }

  lemma {:induction false} HintRefines(t: Tables, archive: Archive, spec: GridSpec, q: Request, time: int)
    requires Shaped(spec) && Sound(archive) && Holds(t, archive)
    ensures Refines(HintWrites(t, spec, q, time), Hinted(archive, spec, q, time), q.attempt)
  {
    hide BuildRecord, Replay, Sound, Holds, Shaped, LinkCollides, Read, StreamRowOf, LinkRowOf, Advised;
    HeldIsRead(t, archive, spec, q.attempt);
    if q.attempt in archive && ReadBack(archive, spec, q.attempt).Ok? {
      var advised := Advised(archive[q.attempt].record, q, time);
      if advised.Ok? {
        HintIsHeld(t, archive, spec, q, time);
        if advised.value.session.events != [] {
          RefreshedIsWhole(t, archive, q.attempt, advised.value);
        }
      }
    }
  }
}

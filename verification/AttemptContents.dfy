/** What an accepted call of the attempt store persists, field by field. */
module AttemptContents {
  import opened Prelude
  import opened LogicGrid
  import opened Play
  import opened Normalization
  import opened AttemptStore
  import opened AttemptTables
  import opened AttemptRuns
  import AttemptEvidence
  import Projections
  import PlayRuns

  /** The latest of the times of a record. */
  predicate IsLatest(record: Persisted) {
    && record.started <= record.updated
    && (forall o :: o in record.observations ==> o.time <= record.updated)
    && (forall o :: o in record.evaluations ==> o.time <= record.updated)
    && (forall o :: o in record.hints ==> o.time <= record.updated)
    && (|| record.updated == record.started
        || (exists o :: o in record.observations && o.time == record.updated)
        || (exists o :: o in record.evaluations && o.time == record.updated)
        || (exists o :: o in record.hints && o.time == record.updated))
  }

  lemma {:induction false} LatestIsTaken(times: seq<int>, floor: int)
    ensures Latest(times, floor) == floor || exists i :: 0 <= i < |times| && times[i] == Latest(times, floor)
  {
    if times != [] {
      var n := |times| - 1;
      LatestIsTaken(times[..n], floor);
    }
  }

  lemma {:induction false} ObservedTimes<T>(items: seq<Observed<T>>, m: int)
    requires forall i :: 0 <= i < |items| ==> Times(items)[i] <= m
    ensures forall o :: o in items ==> o.time <= m
    ensures forall i :: 0 <= i < |items| ==> items[i] in items && items[i].time == Times(items)[i]
  {
    forall o | o in items ensures o.time <= m {
      var i :| 0 <= i < |items| && items[i] == o;
      assert Times(items)[i] <= m;
    }
  }

  lemma {:induction false} LinkedTimes<T>(links: seq<Link<T>>, m: int)
    requires forall i :: 0 <= i < |links| ==> LinkTimes(links)[i] <= m
    ensures forall o :: o in links ==> o.time <= m
    ensures forall i :: 0 <= i < |links| ==> links[i] in links && links[i].time == LinkTimes(links)[i]
  {
    forall o | o in links ensures o.time <= m {
      var i :| 0 <= i < |links| && links[i] == o;
      assert LinkTimes(links)[i] <= m;
    }
  }

  /** What is normalized for a record: its identity, its observations, and the verdict or the outcome of each evaluation
      and hint result, at its time. */
  predicate Sourced(source: Record, record: Persisted) {
    && source.attempt == record.session.view.attempt && source.revision == record.session.view.revision
    && source.user == record.user && source.started == record.started && source.observations == record.observations
    && |source.evaluations| == |record.evaluations| && |source.hints| == |record.hints|
    && (forall i :: 0 <= i < |source.evaluations| ==>
          source.evaluations[i] == Observed(record.evaluations[i].content.evaluation, record.evaluations[i].time))
    && (forall i :: 0 <= i < |source.hints| ==>
          source.hints[i] == Observed(record.hints[i].content.outcome, record.hints[i].time))
  }

  /** A record keeps what it is built from, and everything derived is derived from that alone. */
  lemma {:induction false} RecordExactly(user: UserId, started: int, session: Session,
      observations: seq<Observed<PlayEvent>>, evaluations: seq<Link<Submission>>, hints: seq<Link<Request>>)
    requires BuildRecord(user, started, session, observations, evaluations, hints).Ok?
    ensures var record := BuildRecord(user, started, session, observations, evaluations, hints).value;
      && record.user == user && record.started == started && record.session == session
      && record.observations == observations && record.evaluations == evaluations && record.hints == hints
      && IsLatest(record)
      && AttemptEvidence.BuildEvidence(session.events) == Ok(record.evidence)
      && Sourced(Source(user, started, session, observations, evaluations, hints), record)
      && record.projection == Normalized(Source(user, started, session, observations, evaluations, hints))
      && Projections.AttemptOf(record.projection) == Ok(record.attempt)
      && Admissible(session, observations, evaluations, hints)
  {
    hide Admissible, AttemptEvidence.BuildEvidence, Normalized, Projections.AttemptOf, Latest, Times,
      LinkTimes, IsLatest;
    var record := BuildRecord(user, started, session, observations, evaluations, hints).value;
    UpdatedIsLatest(record);
  }

  lemma {:induction false} UpdatedIsLatest(record: Persisted)
    requires record.updated == Latest(LinkTimes(record.hints), Latest(LinkTimes(record.evaluations),
                                      Latest(Times(record.observations), record.started)))
    ensures IsLatest(record)
  {
    hide Latest;
    var first := Latest(Times(record.observations), record.started);
    var second := Latest(LinkTimes(record.evaluations), first);
    LatestIsTaken(Times(record.observations), record.started);
    LatestIsTaken(LinkTimes(record.evaluations), first);
    LatestIsTaken(LinkTimes(record.hints), second);
    ObservedTimes(record.observations, record.updated);
    LinkedTimes(record.evaluations, record.updated);
    LinkedTimes(record.hints, record.updated);
  }

  // ----- creation -----

  /** An attempt is created exactly for a session at its very start, under a new identifier. It is stored in the mode of
      the session, without observations, as last changed when it started. */
  lemma {:induction false} CreatedExactly(archive: Archive, spec: GridSpec, session: Session, user: UserId, time: int)
    requires Shaped(spec)
    ensures var a := session.view.attempt;
      Created(archive, spec, session, user, time).Ok? <==>
        session.events == [] && Start(spec, a, session.view.mode) == Ok(session) && a !in archive
    ensures Created(archive, spec, session, user, time).Ok? ==>
      var a := session.view.attempt;
      var next := Created(archive, spec, session, user, time).value;
      && next.Keys == archive.Keys + {a} && (forall b :: b in archive ==> next[b] == archive[b])
      && next[a].mode == session.view.mode
      && Held(next[a].record, user, time, session, [], [], []) && next[a].record.updated == time
  {
    hide Shaped, BuildRecord, Start;
    if session.events == [] {
      StartBuilds(user, time, session);
    }
  }

  /** What the record is made of. */
  ghost predicate Held(record: Persisted, user: UserId, started: int, session: Session,
      observations: seq<Observed<PlayEvent>>, evaluations: seq<Link<Submission>>, hints: seq<Link<Request>>) {
    && record.user == user && record.started == started && record.session == session
    && record.observations == observations && record.evaluations == evaluations && record.hints == hints
  }

  lemma {:induction false} StartBuilds(user: UserId, time: int, session: Session)
    requires session.events == []
    ensures BuildRecord(user, time, session, [], [], []).Ok?
    ensures BuildRecord(user, time, session, [], [], []).value.updated == time
    ensures Held(BuildRecord(user, time, session, [], [], []).value, user, time, session, [], [], [])
  {
    hide Normalized, Projections.AttemptOf, AttemptEvidence.BuildEvidence;
    AttemptEvidence.DistinctEventsStand([]);
    BuildsWhenAdmissible(user, time, session, [], [], []);
    RecordExactly(user, time, session, [], [], []);
  }

  /** A record is changed no earlier than its last observation of any kind. */
  lemma {:induction false} LastIsLate(record: Persisted, time: int)
    requires IsLatest(record)
    requires
      || (record.observations != [] && record.observations[|record.observations| - 1].time == time)
      || (record.evaluations != [] && record.evaluations[|record.evaluations| - 1].time == time)
      || (record.hints != [] && record.hints[|record.hints| - 1].time == time)
    ensures time <= record.updated
  {
    if record.observations != [] {
      assert record.observations[|record.observations| - 1] in record.observations;
    }
    if record.evaluations != [] {
      assert record.evaluations[|record.evaluations| - 1] in record.evaluations;
    }
    if record.hints != [] {
      assert record.hints[|record.hints| - 1] in record.hints;
    }
  }

  /** One more observation of any kind, not back in time, is the latest. */
  lemma {:induction false} NewIsLatest(record: Persisted, current: Persisted, time: int)
    requires IsLatest(record) && IsLatest(current) && record.started == current.started && time >= current.updated
    requires forall o :: o in record.observations ==> o in current.observations || o.time == time
    requires forall o :: o in record.evaluations ==> o in current.evaluations || o.time == time
    requires forall o :: o in record.hints ==> o in current.hints || o.time == time
    requires time <= record.updated
    ensures record.updated == time
  {
  }

  // ----- appends -----

  /** An accepted append replaces the session, observes its last event at the time of the call, and changes nothing
      else of this attempt, nor anything of another one. */
  lemma {:induction false} AppendedHolds(archive: Archive, spec: GridSpec, session: Session, time: int)
    requires Shaped(spec) && Sound(archive) && Appended(archive, spec, session, time).Ok?
    ensures var a := session.view.attempt;
      var next := Appended(archive, spec, session, time).value;
      && a in archive && next.Keys == archive.Keys && (forall b :: b in archive && b != a ==> next[b] == archive[b])
      && next[a].mode == archive[a].mode && session.events != []
      && var current := archive[a].record;
         && Held(next[a].record, current.user, current.started, session,
                 current.observations + [Observed(session.events[|session.events| - 1], time)], current.evaluations, current.hints)
         && next[a].record.updated == time
  {
    hide Shaped, BuildRecord, Replay, Sound, KnownEvent, ReadBack, IsLatest, Mentions, Admissible;
    AppendAcceptedExactly(archive, spec, session, time);
    var a := session.view.attempt;
    var current := archive[a].record;
    ReadsRecord(archive, spec, a);
    var observations := current.observations + [Observed(session.events[|session.events| - 1], time)];
    RecordExactly(current.user, current.started, session, observations, current.evaluations, current.hints);
    SoundIsLatest(archive, a);
    var record := BuildRecord(current.user, current.started, session, observations, current.evaluations, current.hints).value;
    LastIsLate(record, time);
    NewIsLatest(record, current, time);
  }

  lemma {:induction false} ReadsRecord(archive: Archive, spec: GridSpec, a: AttemptId)
    requires Shaped(spec) && a in archive && ReadBack(archive, spec, a).Ok?
    ensures ReadBack(archive, spec, a) == Ok(Some(archive[a].record))
  {
    hide Shaped, Replay;
  }

  lemma {:induction false} SoundIsLatest(archive: Archive, a: AttemptId)
    requires Sound(archive) && a in archive
    ensures IsLatest(archive[a].record)
  {
    hide BuildRecord, IsLatest;
    var record := archive[a].record;
    assert SoundEntry(a, record);
    RecordExactly(record.user, record.started, record.session, record.observations, record.evaluations, record.hints);
  }

  // ----- evaluations and hint results -----

  /** An accepted evaluation is chained to the one before it, at the time of the call; nothing else changes. */
  lemma {:induction false} EvaluatedHolds(archive: Archive, spec: GridSpec, s: Submission, time: int)
    requires Shaped(spec) && Sound(archive) && Evaluated(archive, spec, s, time).Ok?
    ensures var next := Evaluated(archive, spec, s, time).value;
      && s.attempt in archive && next.Keys == archive.Keys && (forall b :: b in archive && b != s.attempt ==> next[b] == archive[b])
      && next[s.attempt].mode == archive[s.attempt].mode
      && var current := archive[s.attempt].record;
         && Held(next[s.attempt].record, current.user, current.started, current.session, current.observations,
                 current.evaluations + [Link(s, time, LastLink(current.evaluations))], current.hints)
         && next[s.attempt].record.updated == time
  {
    hide Shaped, BuildRecord, Replay, Sound, ReadBack, IsLatest, Mentions, Admissible;
    EvaluationAcceptedExactly(archive, spec, s, time);
    var current := archive[s.attempt].record;
    ReadsRecord(archive, spec, s.attempt);
    var evaluations := current.evaluations + [Link(s, time, LastLink(current.evaluations))];
    RecordExactly(current.user, current.started, current.session, current.observations, evaluations, current.hints);
    SoundIsLatest(archive, s.attempt);
    var record := BuildRecord(current.user, current.started, current.session, current.observations, evaluations, current.hints).value;
    LastIsLate(record, time);
    NewIsLatest(record, current, time);
  }

  /** An accepted hint result likewise. */
  lemma {:induction false} HintedHolds(archive: Archive, spec: GridSpec, q: Request, time: int)
    requires Shaped(spec) && Sound(archive) && Hinted(archive, spec, q, time).Ok?
    ensures var next := Hinted(archive, spec, q, time).value;
      && q.attempt in archive && next.Keys == archive.Keys && (forall b :: b in archive && b != q.attempt ==> next[b] == archive[b])
      && next[q.attempt].mode == archive[q.attempt].mode
      && var current := archive[q.attempt].record;
         && Held(next[q.attempt].record, current.user, current.started, current.session, current.observations,
                 current.evaluations, current.hints + [Link(q, time, LastLink(current.hints))])
         && next[q.attempt].record.updated == time
  {
    hide Shaped, BuildRecord, Replay, Sound, ReadBack, IsLatest, Mentions, Admissible;
    HintAcceptedExactly(archive, spec, q, time);
    var current := archive[q.attempt].record;
    ReadsRecord(archive, spec, q.attempt);
    var hints := current.hints + [Link(q, time, LastLink(current.hints))];
    RecordExactly(current.user, current.started, current.session, current.observations, current.evaluations, hints);
    SoundIsLatest(archive, q.attempt);
    var record := BuildRecord(current.user, current.started, current.session, current.observations, current.evaluations, hints).value;
    LastIsLate(record, time);
    NewIsLatest(record, current, time);
  }

  // ----- refusals -----

  /** Why a creation is refused: events, then a session that is not the canonical start, then a taken identifier. */
  lemma {:induction false} CreationRefused(archive: Archive, spec: GridSpec, session: Session, user: UserId, time: int)
    requires Shaped(spec)
    ensures var r := Created(archive, spec, session, user, time);
      var start := Start(spec, session.view.attempt, session.view.mode);
      && (session.events != [] ==> r == Err(StreamConflict))
      && (session.events == [] && start.Ok? && start.value != session ==> r == Err(StreamIntegrity))
      && (session.events == [] && start == Ok(session) && session.view.attempt in archive ==> r == Err(AttemptExists))
  {
    hide Shaped, BuildRecord, Start;
    if session.events == [] {
      StartBuilds(user, time, session);
    }
  }

  /** Why an append is refused: a session that is not its own replay, or an attempt that cannot be read, is a breach of
      integrity; everything else conflicts with what is stored. */
  lemma {:induction false} AppendRefused(archive: Archive, spec: GridSpec, session: Session, time: int)
    requires Shaped(spec) && Sound(archive)
    ensures var a, r := session.view.attempt, Appended(archive, spec, session, time);
      var replayed := Replay(spec, a, session.view.mode, session.events);
      && (replayed.Ok? && replayed.value != session ==> r == Err(StreamIntegrity))
      && (replayed == Ok(session) && r.Err? ==>
            r.error == if a in archive && ReadBack(archive, spec, a).Err? then StreamIntegrity else StreamConflict)
  {
    hide Replay, Shaped, Sound, KnownEvent, BuildRecord;
    var a := session.view.attempt;
    var readable := a in archive && ReadBack(archive, spec, a).Ok?;
    if readable && Replay(spec, a, session.view.mode, session.events) == Ok(session) {
      ContinuedExactly(archive, spec, session, time);
    }
  }

  /** Why an evaluation is refused: an unreadable attempt, another revision and an event the session does not have are
      breaches of integrity; a missing attempt, another session and an earlier time are conflicts. */
  lemma {:induction false} EvaluationRefused(archive: Archive, spec: GridSpec, s: Submission, time: int)
    requires Shaped(spec) && Sound(archive) && Evaluated(archive, spec, s, time).Err?
    ensures var unreadable := s.attempt in archive && ReadBack(archive, spec, s.attempt).Err?;
      Evaluated(archive, spec, s, time).error == if unreadable then StreamIntegrity
        else if s.attempt !in archive then StreamConflict
        else var session := archive[s.attempt].record.session;
          if s.revision != session.view.revision || (s.session == session && !Mentions(session.events, s.event))
          then StreamIntegrity else StreamConflict
  {
    hide Replay, Shaped, Sound, Mentions, BuildRecord;
    if s.attempt in archive {
      JudgedExactly(archive, s, time);
    }
  }

  /** Why a hint result is refused: likewise, and a session without events only when nothing else is wrong. */
  lemma {:induction false} HintRefused(archive: Archive, spec: GridSpec, q: Request, time: int)
    requires Shaped(spec) && Sound(archive) && Hinted(archive, spec, q, time).Err?
    ensures var unreadable := q.attempt in archive && ReadBack(archive, spec, q.attempt).Err?;
      Hinted(archive, spec, q, time).error == if unreadable then StreamIntegrity
        else if q.attempt !in archive then StreamConflict
        else var current := archive[q.attempt].record;
          if q.revision != current.session.view.revision then StreamIntegrity
          else if q.session == current.session && time >= current.updated then NoEvents else StreamConflict
  {
    hide Replay, Shaped, Sound, BuildRecord;
    if q.attempt in archive {
      AdvisedExactly(archive, q, time);
    }
  }

  // ----- rows -----

  /** The rows of a sound record are numbered and linked: the index row names the last event and its digest, event rows
      stand at their positions with the digests of their events, and each evaluation row follows the one before. */
  lemma {:induction false} RowsExactly(a: AttemptId, entry: Entry)
    requires SoundEntry(a, entry.record)
    ensures var record := entry.record;
      var events, row := record.session.events, StreamRowOf(entry.mode, record);
      && row.latestSequence == |events| - 1
      && row.latestHash == (if events == [] then PlayGenesis else OfPlayEvent(events[|events| - 1].body))
      && row.user == record.user && row.mode == entry.mode && row.status == record.session.view.status
      && row.started == record.started && IsLatest(record) && row.updated == record.updated
      && |PlayRows(entry)| == |events|
      && (forall i :: 0 <= i < |events| ==>
            && PlayRows(entry)[i].sequenceNo == i && PlayRows(entry)[i].id == events[i].body.id
            && PlayRows(entry)[i].hash == OfPlayEvent(events[i].body)
            && PlayRows(entry)[i].previous == events[i].body.previous)
      && Following(LinkRows(record.evaluations)) && Following(LinkRows(record.hints))
  {
    hide BuildRecord, IsLatest, Following, Linked, Chronological, Mentions, Belongs, Sourced, Normalized, Source,
      AttemptEvidence.BuildEvidence, Projections.AttemptOf, Times, LinkTimes;
    var record := entry.record;
    RecordExactly(record.user, record.started, record.session, record.observations, record.evaluations, record.hints);
    LinkedFollow(record.evaluations);
    LinkedFollow(record.hints);
  }

  /** Each row carries its observation, the digest of it, and the digest of the row before. */
  predicate Following<T(==)>(rows: seq<LinkRow<T>>) {
    forall i :: 0 <= i < |rows| ==>
      && rows[i].hash == OfLink(rows[i].observation)
      && rows[i].previous == if i == 0 then LinkGenesis else rows[i - 1].hash
  }

  lemma {:induction false} LinkedFollow<T>(links: seq<Link<T>>)
    requires Linked(links)
    ensures Following(LinkRows(links))
  {
    forall i | 0 <= i < |links|
      ensures links[i].previous == if i == 0 then LinkGenesis else OfLink(links[i - 1])
    {
      assert links[i].previous == LastLink(links[..i]);
    }
  }

  // ----- reading -----

  lemma {:induction false} PlaysLoaded(rows: seq<PlayRow>)
    requires LoadPlays(rows).Ok?
    ensures var found := LoadPlays(rows).value;
      |found| == |rows| && forall i :: 0 <= i < |rows| ==> rows[i] == PlayRowOf(found[i])
  {
    if rows != [] {
      var n := |rows| - 1;
      PlaysLoaded(rows[..n]);
      assert forall i :: 0 <= i < n ==> rows[..n][i] == rows[i];
    }
  }

  lemma {:induction false} LinksLoaded<T>(rows: seq<LinkRow<T>>)
    requires LoadLinks(rows).Ok?
    ensures rows == LinkRows(LoadLinks(rows).value)
  {
    if rows != [] {
      var n := |rows| - 1;
      LinksLoaded(rows[..n]);
      assert rows == rows[..n] + [rows[n]];
    }
  }

  /** The rows of the attempt, in order, and its index row are those of the record. */
  ghost predicate Stores(t: Tables, a: AttemptId, record: Persisted) {
    && a in t.streams
    && Column(t.plays, a) == PlayRows(Entry(t.streams[a].mode, record))
    && Column(t.evaluations, a) == LinkRows(record.evaluations) && Column(t.hints, a) == LinkRows(record.hints)
    && t.streams[a] == StreamRowOf(t.streams[a].mode, record)
  }

  /** Any tables, damaged or not, are read as a record exactly when their rows are that record's, it is what its
      observations are built into, and replaying its events in the stored mode gives its session, for that attempt. */
  lemma {:induction false} ReadExactly(t: Tables, spec: GridSpec, a: AttemptId, record: Persisted)
    requires Shaped(spec)
    ensures Read(t, spec, a) == Ok(Some(record)) <==>
      && Stores(t, a, record) && Rebuilt(record, record.session) == Ok(record)
      && Replay(spec, a, t.streams[a].mode, Contents(record.observations)) == Ok(record.session)
    ensures Read(t, spec, a) == Ok(None) <==> a !in t.streams
    ensures Read(t, spec, a).Err? ==> Read(t, spec, a) == Err(StreamIntegrity)
  {
    hide Shaped, BuildRecord, Replay, Column, LoadPlays, LoadLinks, Contents;
    if a in t.streams {
      LoadErrors(Column(t.plays, a), Column(t.evaluations, a));
      LoadErrors(Column(t.plays, a), Column(t.hints, a));
      if Stores(t, a, record) {
        PlaysLoad(record.observations, Column(t.plays, a));
        LinksLoad(record.evaluations, Column(t.evaluations, a));
        LinksLoad(record.hints, Column(t.hints, a));
        if Replay(spec, a, t.streams[a].mode, Contents(record.observations)).Ok? {
          ReplayKeepsMode(spec, a, t.streams[a].mode, Contents(record.observations));
        }
      }
      if Read(t, spec, a) == Ok(Some(record)) {
        ReadStores(t, spec, a, record);
      }
    }
  }

  lemma {:induction false} LoadErrors<T>(plays: seq<PlayRow>, links: seq<LinkRow<T>>)
    ensures LoadPlays(plays).Err? ==> LoadPlays(plays) == Err(StreamIntegrity)
    ensures LoadLinks(links).Err? ==> LoadLinks(links) == Err(StreamIntegrity)
  {
    if plays != [] {
      LoadErrors(plays[..|plays| - 1], links);
    } else if links != [] {
      LoadErrors(plays, links[..|links| - 1]);
    }
  }

  lemma {:induction false} ReadStores(t: Tables, spec: GridSpec, a: AttemptId, record: Persisted)
    requires Shaped(spec) && Read(t, spec, a) == Ok(Some(record))
    ensures Stores(t, a, record) && Rebuilt(record, record.session) == Ok(record)
    ensures Replay(spec, a, t.streams[a].mode, Contents(record.observations)) == Ok(record.session)
  {
    hide Shaped, BuildRecord, Replay, Column, LoadPlays, LoadLinks, Contents;
    var row := t.streams[a];
    var observations, evaluations, hints := LoadPlays(Column(t.plays, a)).value, LoadLinks(Column(t.evaluations, a)).value,
      LoadLinks(Column(t.hints, a)).value;
    PlaysLoaded(Column(t.plays, a));
    LinksLoaded(Column(t.evaluations, a));
    LinksLoaded(Column(t.hints, a));
    var session := Replay(spec, a, row.mode, Contents(observations)).value;
    BuiltFrom(row.user, row.started, session, observations, evaluations, hints);
    assert Column(t.plays, a) == PlayRows(Entry(row.mode, record));
    ReplayKeepsMode(spec, a, row.mode, Contents(observations));
  }

  lemma {:induction false} ReplayKeepsMode(spec: GridSpec, a: AttemptId, mode: Mode, events: seq<PlayEvent>)
    requires Shaped(spec) && Replay(spec, a, mode, events).Ok?
    ensures Replay(spec, a, mode, events).value.view.mode == mode
  {
    hide Shaped;
    PlayRuns.ReplayedIsRun(spec, a, mode, events, Replay(spec, a, mode, events).value);
  }
}
